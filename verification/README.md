# Token usage metering, workspace credit and route access, in Dafny

This project models three pieces of logic from a low-code LLM-flow server and its web UI, and proves properties of the model.

1. **The token-usage pipeline** (`token-usage.service.ts`). It is given a list of arbitrary JSON payloads from model calls, and:
   - walks each payload and picks at most one usage object per node;
   - derives ten canonical token counters plus a breakdown of every other numeric field;
   - aggregates the counters over all entries, with a per-model total;
   - groups the credential accesses of the run;
   - splits every counter across the groups with a largest-remainder integer split that loses nothing;
   - hands the rows' totals to billing when the run has a user.
2. **The workspace credit ledger** (`workspace-credit.service.ts`). This is a map from workspace member to an optional balance, plus an append-only transaction log. Top-up is an all-or-nothing transition. The summary and history queries are read-only functions.
3. **The client-side access decision** (`useAuth.jsx`, `RequireAuth.jsx`):
   - permission matching over comma-separated ids;
   - workspace and feature-flag checks;
   - the route guard's ordered decision. It yields nothing, a redirect to `/login`, a redirect to `/unauthorized` with a reason, or the route's children.

Modules and files:

| file | module | what it holds |
|---|---|---|
| `wrappers.dfy` | `Wrappers` | `Option` |
| `seqs.dfy` | `Seqs` | `Sum` over integer sequences and its algebra |
| `payload.dfy` | `Payload` | the JSON datatype, JavaScript truthiness, property lookup |
| `tally.dfy` | `Tally` | insertion-ordered string-to-integer records (`Record<string, number>`) |
| `metrics.dfy` | `Metrics` | the ten canonical counters plus the breakdown, `addMetrics`, `hasAnyUsage` |
| `keys.dfy` | `KeyText` | `normalizeBreakdownKey`, `normalizeContainerKey`, dotted paths |
| `derivation.dfy` | `Derivation` | `flattenNumericFields`, `tokenAliasMap`, `deriveMetricsFromUsage` |
| `derivation_facts.dfy` | `DerivationFacts` | routing facts about the real alias table and worked examples |
| `extraction.dfy` | `Extraction` | container keys, `getModelFromObject`, `pickPreferredUsageEntry`, the payload walk |
| `distribution.dfy` | `Distribution` | `distributeIntegerByWeights` |
| `recorder.dfy` | `Recorder` | the pure core of `recordTokenUsage`: aggregation, `getTopModel`, grouping, rows, billing |
| `ledger.dfy` | `CreditLedger` | `topupCredit`, `getCreditSummary`, `getTransactions` |
| `access.dfy` | `AccessControl` | `hasPermission`, `hasAssignedWorkspace`, `hasDisplay`, `checkFeatureFlag`, `RequireAuth` |

How the model relates to the code:

- **JSON.** JSON is `Null | Bool | Num(int) | Str | Arr | Obj(seq<(string, Json)>)`. An object keeps its keys in `Object.entries` order, and every ranking tie-break follows that order.
- **Numbers.** Token counts are unbounded integers with exact division.
- **Absent strings.** A missing or empty string prop is written `""`.
- **Persistence.** Each database transaction is a function from the old state to a new state, or to an error with the state unchanged.
- **Quirks kept.** Three quirks of the code are modelled as written and proved:
  - the `inputtokencount` alias can never match. `inputTokenCount` normalises to `input_token_count`, so its flattened value lands in the breakdown while the direct read still fills `inputTokens`;
  - `normalizeContainerKey` turns `amazon-bedrock-invocationMetrics` into a key that is not in the container set;
  - priority 3 is never given to a candidate.

## Model

| member | source | states |
|---|---|---|
| `Metrics.AddMetrics` | packages/server/src/enterprise/services/token-usage.service.ts:81-99 | every counter and every breakdown key of the sum is the target's plus the source's; the keys are the union and stay distinct |
| `Metrics.HasAnyUsage` | packages/server/src/enterprise/services/token-usage.service.ts:378-391 | true iff some canonical counter is positive |
| `Metrics.HasAnyUsageMeansSomeField` | packages/server/src/enterprise/services/token-usage.service.ts:378-391 | `hasAnyUsage` does not depend on the additional breakdown |
| `Metrics.AddEmpty` | packages/server/src/enterprise/services/token-usage.service.ts:61-73 | the empty metrics are the identity of `addMetrics` and show no usage |
| `Tally.Add` | packages/server/src/enterprise/services/token-usage.service.ts:83 | `t[key] = (t[key] \|\| 0) + value` adds the value under that key only, keeps keys distinct and grows the total by the value |
| `Tally.AddKeepsOrder` | packages/server/src/enterprise/services/token-usage.service.ts:83 | updating a present key keeps every position; a new key is appended last (insertion order) |
| `Tally.AddAll` | packages/server/src/enterprise/services/token-usage.service.ts:81-85 | merging a breakdown adds every key's value, with the union of the keys |
| `Derivation.Flatten` | packages/server/src/enterprise/services/token-usage.service.ts:101-125 | under every key the flattened record holds the sum of the numbers whose dotted path (array positions as decimal indices) is that key, a bare number having no path; the paths are distinct and the values add up to the sum of every number in the usage object |
| `Derivation.FlattenInto` | packages/server/src/enterprise/services/token-usage.service.ts:101-125 | flattening into an output with distinct keys keeps them distinct and adds exactly the numbers below the value to its total |
| `Derivation.FlattenIntoAt` | packages/server/src/enterprise/services/token-usage.service.ts:101-123 | flattening below a path adds, under every key, exactly the numbers below the value whose dotted path is that key, and leaves every other key as it was |
| `Derivation.FlattenChildrenAt` | packages/server/src/enterprise/services/token-usage.service.ts:111-122 | the array and object loops add, under every key, the numbers below the remaining children, each child's path extended by its index or its key |
| `Derivation.Alias` | packages/server/src/enterprise/services/token-usage.service.ts:127-155 | an alias lookup returns the counter of an entry with that key, and none only when no entry has it |
| `Derivation.AliasFirst` | packages/server/src/enterprise/services/token-usage.service.ts:127-155 | the lookup returns the first entry with the key |
| `Derivation.Put` | packages/server/src/enterprise/services/token-usage.service.ts:170-178 | one leaf goes to the counter its normalised key (or last segment) routes to, or else to the breakdown under the normalised key; nothing else changes, nothing is lost, and a breakdown key it adds is normalised and claimed by no alias |
| `Derivation.Place` | packages/server/src/enterprise/services/token-usage.service.ts:170-179 | over all leaves, every counter grows by what is routed to it and every breakdown key by the unrouted values with that key; the total is conserved, keys stay distinct, and every breakdown key stays normalised and unclaimed |
| `Derivation.Raise` | packages/server/src/enterprise/services/token-usage.service.ts:194-196 | a direct field only raises a counter to `max(flattened, direct)` and only when positive; the other counters and the breakdown are unchanged |
| `Derivation.DeriveWith` | packages/server/src/enterprise/services/token-usage.service.ts:166-202 | the derived input, output and total are the flattened ones raised by the direct reads; a total still zero becomes input + output; the other counters and the breakdown come from the leaves alone |
| `Derivation.Derive` | packages/server/src/enterprise/services/token-usage.service.ts:166-202 | the derived breakdown has distinct keys, each with no capital, no `__`, no leading `_` and no `.digit` segment, and neither the key nor its last dotted segment is a key of `tokenAliasMap` |
| `Derivation.SafeToNumber` | packages/server/src/enterprise/services/token-usage.service.ts:75-79 | a number reads as itself, a string as a non-negative number that is positive only for a non-empty string of decimal digits, and absent, null, boolean, array and object values as 0 |
| `Derivation.SafeToNumberReadsDecimal` | packages/server/src/enterprise/services/token-usage.service.ts:77 | the decimal string of a natural number reads as that number |
| `Derivation.PlacedConservesLeaves` | packages/server/src/enterprise/services/token-usage.service.ts:166-179 | the counters plus the breakdown of the routed leaves add up to the sum of all numbers in the usage object |
| `Derivation.CounterSumSet` | packages/server/src/enterprise/services/token-usage.service.ts:175 | setting one counter changes the sum of the counters by the difference only |
| `Derivation.AliasAbsent` | packages/server/src/enterprise/services/token-usage.service.ts:172 | a key that no table entry names has no alias |
| `DerivationFacts.AudioTokensRouting` | packages/server/src/enterprise/services/token-usage.service.ts:151-154 | `completion_tokens_details.audio_tokens` routes to audio output and `prompt_tokens_details.audio_tokens` to audio input, because the full key is looked up first |
| `DerivationFacts.AudioTokensFallback` | packages/server/src/enterprise/services/token-usage.service.ts:172 | under any other parent the last segment `audio_tokens` decides: audio input |
| `DerivationFacts.PromptTokensRouting` | packages/server/src/enterprise/services/token-usage.service.ts:129 | `prompt_tokens` routes to the input counter |
| `DerivationFacts.CompletionTokensRouting` | packages/server/src/enterprise/services/token-usage.service.ts:132 | `completion_tokens` routes to the output counter |
| `DerivationFacts.InputTokenCountRouting` | packages/server/src/enterprise/services/token-usage.service.ts:130 | `inputTokenCount` normalises to `input_token_count`, which no alias names: the `inputtokencount` alias is unreachable |
| `DerivationFacts.InputTokenCountQuirk` | packages/server/src/enterprise/services/token-usage.service.ts:166-199 | `{inputTokenCount: n}` with n > 0 derives input n and total n, and also records n in the breakdown under `input_token_count` |
| `DerivationFacts.InputTokenCountDirect` | packages/server/src/enterprise/services/token-usage.service.ts:181-192 | the direct reads of `{inputTokenCount: n}` are input n, output 0, total 0 |
| `DerivationFacts.LoneUnroutedDerived` | packages/server/src/enterprise/services/token-usage.service.ts:166-199 | a lone unrouted leaf whose value the direct input read also sees lands in both the breakdown and `inputTokens`, and becomes the total |
| `DerivationFacts.UnroutedLeaf` | packages/server/src/enterprise/services/token-usage.service.ts:176-178 | an unrouted leaf adds nothing to any counter and all of itself to its breakdown key |
| `DerivationFacts.InputOutputLeaves` | packages/server/src/enterprise/services/token-usage.service.ts:170-179 | leaves routed to input and output place those counts there and nothing in the total |
| `DerivationFacts.PromptCompletionExample` | packages/server/src/enterprise/services/token-usage.service.ts:166-199 | `{prompt_tokens: p, completion_tokens: c}` derives input p, output c and total p + c |
| `DerivationFacts.InputOutputDerived` | packages/server/src/enterprise/services/token-usage.service.ts:194-199 | when the leaves and the direct reads agree on input p and output c and there is no total, the total becomes p + c |
| `DerivationFacts.FlattenTwo` | packages/server/src/enterprise/services/token-usage.service.ts:118-122 | two numeric fields flatten to two leaves in key order |
| `DerivationFacts.PlaceTwo` | packages/server/src/enterprise/services/token-usage.service.ts:170-179 | two leaves are placed one after the other, in order |
| `KeyText.NormalizeBreakdownKey` | packages/server/src/enterprise/services/token-usage.service.ts:157-164 | the result has no ASCII upper-case letter, no `__`, no leading `_` and no `.` followed by a digit |
| `KeyText.NormalizeIdempotent` | packages/server/src/enterprise/services/token-usage.service.ts:157-164 | normalising a normalised key changes nothing |
| `KeyText.NormalizeFixed` | packages/server/src/enterprise/services/token-usage.service.ts:157-164 | a key that already has every normalised shape is returned unchanged |
| `KeyText.SnakeKeyIsNormal` | packages/server/src/enterprise/services/token-usage.service.ts:157-164 | the same, with the shapes checked position by position |
| `KeyText.NormalizeCamelCase` | packages/server/src/enterprise/services/token-usage.service.ts:160-161 | a camelCase key of three lower-case words gets an underscore before each capital and is lowered |
| `KeyText.StripIndexSegments` | packages/server/src/enterprise/services/token-usage.service.ts:159 | removing `.` plus digits leaves no `.` followed by a digit |
| `KeyText.CollapseUnderscores` | packages/server/src/enterprise/services/token-usage.service.ts:162 | collapsing runs leaves no `__` and keeps the first character |
| `KeyText.Lower` | packages/server/src/enterprise/services/token-usage.service.ts:161 | lower-casing maps each character and leaves no upper-case letter |
| `KeyText.MarkUpperAppend` | packages/server/src/enterprise/services/token-usage.service.ts:160 | marking capitals distributes over concatenation |
| `KeyText.LastSegmentAfterDot` | packages/server/src/enterprise/services/token-usage.service.ts:172 | `key.split('.').pop()` is what follows the last dot |
| `KeyText.LastSegmentNoDot` | packages/server/src/enterprise/services/token-usage.service.ts:172 | a dot-free key is its own last segment |
| `Extraction.ContainerKeysSplit` | packages/server/src/enterprise/services/token-usage.service.ts:204-216 | the container set is exactly the actual keys together with the estimated keys |
| `Extraction.ActualEstimatedDisjoint` | packages/server/src/enterprise/services/token-usage.service.ts:215-216 | no key is both actual and estimated |
| `Extraction.ContainerPriority` | packages/server/src/enterprise/services/token-usage.service.ts:254-258 | a container key has priority 1 iff actual and 2 iff estimated; 3 is never assigned to a candidate |
| `Extraction.Priority` | packages/server/src/enterprise/services/token-usage.service.ts:254-258 | the priority is 1, 2 or 3 |
| `Extraction.NameIn` | packages/server/src/enterprise/services/token-usage.service.ts:221-223 | the result is the first of the keys whose value is a non-empty string, or none when there is no such key |
| `Extraction.FirstNameWins` | packages/server/src/enterprise/services/token-usage.service.ts:221-223 | the first of `model`, `modelName`, `model_name` holding a non-empty string decides the name found |
| `Extraction.Or` | packages/server/src/enterprise/services/token-usage.service.ts:225 | `a \|\| b` yields `a` when it is truthy and `b` otherwise |
| `Extraction.ModelOf` | packages/server/src/enterprise/services/token-usage.service.ts:220-233 | the model is either the inherited one or a non-empty name, and a known inherited model is never lost; which name wins is stated by the three lemmas below |
| `Extraction.OwnModelWins` | packages/server/src/enterprise/services/token-usage.service.ts:221-223 | the first of `model`, `modelName`, `model_name` holding a non-empty string on the node is taken, whatever the metadata and the inherited model |
| `Extraction.MetadataSource` | packages/server/src/enterprise/services/token-usage.service.ts:225 | the metadata consulted is `response_metadata` when it is truthy and `responseMetadata` otherwise |
| `Extraction.MetadataModelWins` | packages/server/src/enterprise/services/token-usage.service.ts:225-230 | without a name on the node, the first model key naming a model in the metadata object beats the inherited model |
| `Extraction.InheritedModelKept` | packages/server/src/enterprise/services/token-usage.service.ts:232 | with no name on the node or in its metadata, the inherited model is kept |
| `Extraction.Slot` | packages/server/src/enterprise/services/token-usage.service.ts:270-285 | a field gives a candidate iff its value is a truthy object or array and its normalised key is a container key |
| `Extraction.SlotPriority` | packages/server/src/enterprise/services/token-usage.service.ts:279-284 | every candidate has priority 1 (actual container) or 2 (estimated container) |
| `Extraction.Scan` | packages/server/src/enterprise/services/token-usage.service.ts:294-299 | the scan finds no head iff there is no candidate, and otherwise finds the candidate a stable sort puts first |
| `Extraction.HeadUnique` | packages/server/src/enterprise/services/token-usage.service.ts:294-297 | at most one candidate heads the sorted list |
| `Extraction.PickPreferred` | packages/server/src/enterprise/services/token-usage.service.ts:260-300 | an entry carries the node's model, an object or array as usage, and a container key or `direct_usage_object` as source |
| `Extraction.PickedIsHead` | packages/server/src/enterprise/services/token-usage.service.ts:294-299 | with candidates, the entry is the head of the sorted candidates, with its normalised key as source |
| `Extraction.HeadExists` | packages/server/src/enterprise/services/token-usage.service.ts:287-299 | one qualifying field is enough for a head to exist |
| `Extraction.NoCandidate` | packages/server/src/enterprise/services/token-usage.service.ts:287-292 | with no candidate, the node itself is the entry (`direct_usage_object`) iff it has a usage-signal key, and otherwise there is none |
| `Extraction.HasUsageSignals` | packages/server/src/enterprise/services/token-usage.service.ts:235-250 | true iff one of the object's keys is one of the twelve usage-signal keys |
| `Extraction.ActualBeatsEstimated` | packages/server/src/enterprise/services/token-usage.service.ts:294-297 | if any actual container qualifies, the chosen one is actual, whatever the totals |
| `Extraction.LargerTotalWins` | packages/server/src/enterprise/services/token-usage.service.ts:294-297 | among candidates of the head's priority none has a larger total, and every earlier one has a strictly smaller total (first in key order wins ties) |
| `Extraction.ScalarYieldsNothing` | packages/server/src/enterprise/services/token-usage.service.ts:306 | null, booleans, numbers and strings yield no entry |
| `Extraction.ArrayConcatenates` | packages/server/src/enterprise/services/token-usage.service.ts:308-313 | an array yields its items' entries in order, each walked with the same model |
| `Extraction.ItemsAreAll` | packages/server/src/enterprise/services/token-usage.service.ts:309-311 | the item loop from position i is the walk of the remaining items |
| `Extraction.EntryStopsDescent` | packages/server/src/enterprise/services/token-usage.service.ts:315-321 | a node that yields an entry yields only that entry: nothing below it is visited |
| `Extraction.NoEntryDescends` | packages/server/src/enterprise/services/token-usage.service.ts:315-327 | a node that yields no entry of its own yields exactly the entries of its truthy object and array children, in field order, each walked with the node's model |
| `Extraction.FieldsAreChildren` | packages/server/src/enterprise/services/token-usage.service.ts:323-326 | the child loop from field i walks exactly the remaining truthy object and array values, skipping the rest |
| `Extraction.Walk` | packages/server/src/enterprise/services/token-usage.service.ts:305-327 | every extracted entry's usage is an object or array, its source is a container key or `direct_usage_object`, and a model known at the top is never lost on the way down |
| `Extraction.BedrockKeyNeverContainer` | packages/server/src/enterprise/services/token-usage.service.ts:212 | `amazon-bedrock-invocationMetrics` normalises to a key outside the container set |
| `Extraction.UsageMetadataIsActual` | packages/server/src/enterprise/services/token-usage.service.ts:215 | `usageMetadata` normalises to `usage_metadata`, an actual container |
| `KeyText.CamelToSnake` | packages/server/src/enterprise/services/token-usage.service.ts:252 | the result has no capital; a key with a capital grows by at least one underscore, and a key without one is unchanged |
| `Extraction.CamelOneCapital` | packages/server/src/enterprise/services/token-usage.service.ts:252 | a two-word camelCase key becomes the snake_case key |
| `Distribution.NothingToSplit` | packages/server/src/enterprise/services/token-usage.service.ts:341 | a non-positive total or no weights gives a 0 for every weight |
| `Distribution.Distribute` | packages/server/src/enterprise/services/token-usage.service.ts:340-362 | the split has one entry per weight |
| `Distribution.ZeroWeightSumGoesFirst` | packages/server/src/enterprise/services/token-usage.service.ts:343-344 | with a positive total and weights summing to zero, the whole total goes to the first slot and 0 to the rest |
| `Distribution.DistributeLargestRemainder` | packages/server/src/enterprise/services/token-usage.service.ts:346-362 | with a positive total and non-zero weight sum: the split sums to the total; each slot gets `floor(total*w/sum)` or one more; a slot given the extra unit has a larger fractional part than one not given it, or an equal one and a smaller index |
| `Distribution.RemainderBounds` | packages/server/src/enterprise/services/token-usage.service.ts:347-359 | the units left after flooring are fewer than the slots, so the remainder loop never wraps round the order |
| `Distribution.KeysSumToRemainder` | packages/server/src/enterprise/services/token-usage.service.ts:346-351 | the fractional parts add up to the units lost to flooring |
| `Distribution.HandOutLargest` | packages/server/src/enterprise/services/token-usage.service.ts:349-359 | handing out fewer units than slots along the sorted order adds the units, at most one per slot, to the first slots in the order |
| `Distribution.HandOutSum` | packages/server/src/enterprise/services/token-usage.service.ts:355-359 | the remainder loop adds exactly the remainder |
| `Distribution.Order` | packages/server/src/enterprise/services/token-usage.service.ts:350-352 | the order holds every slot once, sorted by descending fractional part with ties by index (a stable sort) |
| `Distribution.Conservation` | packages/server/src/enterprise/services/token-usage.service.ts:340-362 | a non-negative total over a non-empty weight list is split without loss |
| `Distribution.NonNegativeShares` | packages/server/src/enterprise/services/token-usage.service.ts:340-362 | with non-negative weights no slot gets a negative share |
| `Distribution.ExampleSplit` | packages/server/src/enterprise/services/token-usage.service.ts:340-362 | 150 split 2 : 1 gives 100 and 50 |
| `Recorder.ExtractAll` | packages/server/src/enterprise/services/token-usage.service.ts:415 | the payloads' entries are those of walking them as the items of one array; no payloads give no entries |
| `Recorder.ExtractOne` | packages/server/src/enterprise/services/token-usage.service.ts:415 | one payload gives exactly that payload's entries |
| `Recorder.ExtractAllAppend` | packages/server/src/enterprise/services/token-usage.service.ts:415 | `flatMap` over two lists of payloads concatenates their entries, in order |
| `Recorder.Aggregate` | packages/server/src/enterprise/services/token-usage.service.ts:434-439 | the aggregated breakdown has distinct keys |
| `Recorder.AggregateCounts` | packages/server/src/enterprise/services/token-usage.service.ts:437-439 | every aggregated counter is the sum of that counter over the entries |
| `Recorder.AggregateBreakdown` | packages/server/src/enterprise/services/token-usage.service.ts:437-439 | every aggregated breakdown key is the sum of that key over the entries |
| `Recorder.ModelTotals` | packages/server/src/enterprise/services/token-usage.service.ts:440-441 | every entry's model key (`model \|\| 'unknown'`) has a distinct total |
| `Recorder.ModelTotalsGet` | packages/server/src/enterprise/services/token-usage.service.ts:440-441 | each model key's total is the sum of the total tokens of the entries with that model key |
| `Recorder.ModelTotalsConserve` | packages/server/src/enterprise/services/token-usage.service.ts:435-441 | the per-model totals add up to the aggregated total |
| `Recorder.TopModel` | packages/server/src/enterprise/services/token-usage.service.ts:333-338 | none iff there are no models; otherwise a model with the largest total, before which every total is smaller (the first maximum) |
| `Recorder.TopUnique` | packages/server/src/enterprise/services/token-usage.service.ts:336-337 | the first maximum is unique |
| `Recorder.GroupBy` | packages/server/src/enterprise/services/token-usage.service.ts:498-511 | the groups have distinct keys, each counts every occurrence of its key and points at its first occurrence, and every key has a group |
| `Recorder.Bump` | packages/server/src/enterprise/services/token-usage.service.ts:500-510 | one loop step adds one to an existing group or appends a new group with count 1 |
| `Recorder.CountsAddUp` | packages/server/src/enterprise/services/token-usage.service.ts:498-514 | the usage counts add up to the number of keys |
| `Recorder.GroupsDistinct` | packages/server/src/enterprise/services/token-usage.service.ts:499 | no two groups share a key `${credentialId \|\| ''}:${credentialName \|\| 'Unknown Credential'}` |
| `Recorder.GroupsCounted` | packages/server/src/enterprise/services/token-usage.service.ts:501-502 | a group's usage count is the number of accesses with its key |
| `Recorder.GroupsFirst` | packages/server/src/enterprise/services/token-usage.service.ts:503-509 | a group keeps the first access with its key, and so that access's model |
| `Recorder.GroupsCover` | packages/server/src/enterprise/services/token-usage.service.ts:498-511 | every access belongs to a group |
| `Recorder.GroupsAddUp` | packages/server/src/enterprise/services/token-usage.service.ts:513-514 | the weights add up to the number of accesses |
| `Recorder.Splits` | packages/server/src/enterprise/services/token-usage.service.ts:516-527 | each canonical counter is split into one share per group, and the shares of a non-negative counter add up to it |
| `Recorder.ShareBreakdownGet` | packages/server/src/enterprise/services/token-usage.service.ts:529-541 | a group's breakdown entry for any key is its share of the aggregated value of that key |
| `Recorder.Rows` | packages/server/src/enterprise/services/token-usage.service.ts:537-564 | one row per group, in order, with the group's id, name and count, its model or else the top model, and its share of every counter and breakdown key |
| `Recorder.RowsConserveCounter` | packages/server/src/enterprise/services/token-usage.service.ts:516-564 | the rows' shares of every non-negative counter add up to the aggregate |
| `Recorder.RowsConserveKey` | packages/server/src/enterprise/services/token-usage.service.ts:529-564 | the rows' shares of every non-negative breakdown key add up to the aggregate |
| `Recorder.Record` | packages/server/src/enterprise/services/token-usage.service.ts:401-587 | skipped exactly for no payloads, no extracted entries, or no positive counter; when recorded, the execution is the aggregate, there are rows iff there are accesses, and billing happens only with a user and accesses |
| `Recorder.RecordConserves` | packages/server/src/enterprise/services/token-usage.service.ts:434-564 | in a recorded run with accesses, the rows' shares of every non-negative counter and breakdown key add up to the execution's |
| `Recorder.FallbackModel` | packages/server/src/enterprise/services/token-usage.service.ts:535-550 | a group with no model gets the top model, the first model with the largest total |
| `Recorder.BilledTotals` | packages/server/src/enterprise/services/token-usage.service.ts:578-582 | the billed lines' totals add up to the rows' total-token shares |
| `Recorder.BilledIsExecutionTotal` | packages/server/src/enterprise/services/token-usage.service.ts:575-582 | a recorded run with a user and accesses is billed, and the billed totals add up to the execution's total tokens when that is non-negative |
| `Recorder.NoBilling` | packages/server/src/enterprise/services/token-usage.service.ts:486-572 | without a user nothing is billed; without accesses there are no rows and nothing is billed |
| `CreditLedger.TopupCredit` | packages/server/src/enterprise/services/workspace-credit.service.ts:83-130 | a failed top-up leaves the ledger as it was; a successful one stores the returned credit for an existing member |
| `CreditLedger.TopupRejectsBadAmount` | packages/server/src/enterprise/services/workspace-credit.service.ts:84-86 | a non-integer or non-positive amount gives 400 `Invalid credit amount` before any lookup, and nothing changes |
| `CreditLedger.TopupMissingMember` | packages/server/src/enterprise/services/workspace-credit.service.ts:94-101 | a missing workspace-user row gives 404 `Workspace User Not Found` and the ledger is rolled back |
| `CreditLedger.TopupSucceeds` | packages/server/src/enterprise/services/workspace-credit.service.ts:103-122 | the balance becomes `(old ?? 0) + amount`; no other member changes; exactly one `topup` transaction is appended with the amount and the new balance; the description defaults to `Manual top-up` |
| `CreditLedger.TopupMonotone` | packages/server/src/enterprise/services/workspace-credit.service.ts:103 | a top-up never lowers a balance, and a successful one raises it by a positive amount |
| `CreditLedger.TopupKeepsConsistent` | packages/server/src/enterprise/services/workspace-credit.service.ts:103-113 | top-ups keep the log consistent: each member's newest logged balance is their balance, and each logged balance is the previous one plus its amount |
| `CreditLedger.AppendKeepsConsistent` | packages/server/src/enterprise/database/entities/workspace-credit-transaction.entity.ts:23-28 | recording a transaction that moves a balance by its signed amount keeps the log consistent |
| `CreditLedger.EmptyLogConsistent` | packages/server/src/enterprise/services/workspace-credit.service.ts:103-113 | an empty log is consistent with any balances |
| `CreditLedger.TopupsReplay` | packages/server/src/enterprise/services/workspace-credit.service.ts:103-113 | a sequence of positive top-ups adds their total to the balance and logs one transaction each |
| `CreditLedger.NewestFirst` | packages/server/src/enterprise/services/workspace-credit.service.ts:61-70 | the history holds every logged transaction of the member and nothing else, as many as the log has, and starts with the member's last logged transaction |
| `CreditLedger.GetCreditSummary` | packages/server/src/enterprise/services/workspace-credit.service.ts:21-43 | found iff the member exists, with credit `credit ?? 0`; otherwise 404 |
| `CreditLedger.NormalizeLimit` | packages/server/src/enterprise/services/workspace-credit.service.ts:59 | an integer limit is clamped to [1, 500]; a non-integer limit gives 100 |
| `CreditLedger.GetTransactions` | packages/server/src/enterprise/services/workspace-credit.service.ts:45-81 | found iff the member exists; otherwise 404; returns `credit ?? 0` and the first min(limit, count) of the member's transactions, newest first, each one of the member's logged transactions, and none only when the member has none |
| `CreditLedger.DefaultLimit` | packages/server/src/enterprise/services/workspace-credit.service.ts:45 | with no limit at most 100 transactions come back, all of the member |
| `CreditLedger.NewestMatchesBalance` | packages/server/src/enterprise/services/workspace-credit.service.ts:61-77 | on a consistent ledger the newest returned transaction records the returned credit |
| `AccessControl.Split` | packages/ui/src/hooks/useAuth.jsx:17 | `split(',')` always gives at least one piece, and no piece has a comma |
| `AccessControl.JoinSplit` | packages/ui/src/hooks/useAuth.jsx:17 | joining the pieces with commas gives back the original id string |
| `AccessControl.SplitJoin` | packages/ui/src/hooks/useAuth.jsx:17 | splitting comma-free ids joined with commas gives the ids back |
| `AccessControl.SomeHeld` | packages/ui/src/hooks/useAuth.jsx:19 | `some(includes)` holds iff some piece is in the permissions |
| `AccessControl.HasPermission` | packages/ui/src/hooks/useAuth.jsx:11-22 | true for a global user whatever the id; false for an empty id or missing or empty permissions; otherwise true iff some untrimmed comma-separated piece is held |
| `AccessControl.HeldList` | packages/ui/src/hooks/useAuth.jsx:16-20 | a non-global user holds a comma-joined list of ids iff they hold one of them |
| `AccessControl.HeldSingle` | packages/ui/src/hooks/useAuth.jsx:16-21 | a single id is held by a non-global user iff it is in their permission list |
| `AccessControl.HasAssignedWorkspace` | packages/ui/src/hooks/useAuth.jsx:24-28 | true for a global user; otherwise true iff the id equals `activeWorkspaceId`, which defaults to `''` |
| `AccessControl.HasDisplay` | packages/ui/src/hooks/useAuth.jsx:30-52 | true for an empty display or a global user; otherwise true iff features is a non-empty object whose own key `display` is `true` or `'true'` |
| `AccessControl.FeatureEnabledShape` | packages/ui/src/hooks/useAuth.jsx:41-51 | only a non-empty object can enable a flag, through an own key set to `true` or `'true'` |
| `AccessControl.OtherFlagsDisabled` | packages/ui/src/routes/RequireAuth.jsx:29-31 | a flag set to anything but `true` or `'true'` leaves the feature off |
| `AccessControl.CheckFeatureFlag` | packages/ui/src/routes/RequireAuth.jsx:15-35 | children iff features is a non-empty, non-array object with own key `display` equal to `true` or `'true'`; otherwise `feature_not_available` |
| `AccessControl.FeatureCheckMatchesHasDisplay` | packages/ui/src/routes/RequireAuth.jsx:24-34 | for a non-global user the guard's flag check and `hasDisplay` agree |
| `AccessControl.ReasonTextInjective` | packages/ui/src/routes/RequireAuth.jsx:45-50 | distinct reasons are reported with distinct texts |
| `AccessControl.RequireAuth` | packages/ui/src/routes/RequireAuth.jsx:37-107 | nothing iff loading; after loading, `/login` iff no user; `access_denied` iff signed in on no known platform; the open-source reasons only on open source; flag reasons only for flagged routes |
| `AccessControl.SignedOutGoesToLogin` | packages/ui/src/routes/RequireAuth.jsx:57-61 | a signed-out visitor goes to `/login`, before any platform check |
| `AccessControl.OpenSourceDecision` | packages/ui/src/routes/RequireAuth.jsx:63-73 | on open source, `feat:sso-config` gives `enterprise_only_feature`; any other flag gives children iff global, else `owner_required`; no flag gives children; open source is decided before cloud or enterprise |
| `AccessControl.FlaggedRouteDecision` | packages/ui/src/routes/RequireAuth.jsx:76-95 | on cloud or enterprise with a flag: a global user goes to the flag check; a non-global user without permissions gets `no_permissions_assigned`; an absent or held permission goes to the flag check; otherwise `missing_permission` |
| `AccessControl.UnflaggedRouteDecision` | packages/ui/src/routes/RequireAuth.jsx:97-102 | on cloud or enterprise without a flag, the outcome is `missing_permission` iff a permission is required, not held and the user is not global; otherwise children |
| `AccessControl.ChildrenIffGranted` | packages/ui/src/routes/RequireAuth.jsx:52-106 | the guard renders the children exactly when an order-free statement of the access rules holds |
| `AccessControl.GlobalUserOnCloud` | packages/ui/src/routes/RequireAuth.jsx:78-82 | a global user on cloud or enterprise sees a route iff it has no flag or its flag is enabled |

## Left out

- Persistence is left out: TypeORM repositories, query runners, `save`, commit and rollback. A transaction is a function to a new state or to an error with the state unchanged. The summary SQL of `getUsageSummaryByOrganization` is out too.
- Logging (`logger.*`) and the `sourceCounts` tally, which is only logged, are left out.
- `Derivation.SafeToNumber`: reads integer JSON numbers and strings of plain decimal digits. Every other string reads as 0 in the model, though `Number` also accepts surrounding whitespace, a sign, a fraction, an exponent, `0x`/`0o`/`0b` prefixes and `Infinity`; that parsing is not modelled. Fractional or non-finite token values are not representable.
- `distributeIntegerByWeights` uses exact integer arithmetic instead of JavaScript double division. Its fractional parts are compared as numerators over the common denominator `|sum|`.
- The `multiplier` parameter of `addMetrics` and `addAdditionalBreakdown` is always 1 at its call sites. It is left out.
- `parseDateRange` depends on the clock and on date parsing. It is left out, as is everything after line 588 of the token-usage service.
- `consumeCreditByCredentialUsages` is not defined in any file of this model. Billing is modelled only as the list of (credential id, credential name, total tokens) lines it is given. The code passes no model in that list, so none is modelled.
- JavaScript details are left out:
  - `Object.entries` lists integer-like keys first, and the model does not;
  - case mapping covers ASCII only, where JavaScript's is Unicode `toLowerCase`;
  - cyclic payloads are not representable;
  - duplicate object keys are assumed absent, and a lookup returns the first;
  - `tokenAliasMap` and the breakdown are plain objects, so a leaf whose normalised key, or that key's last dotted segment, is `constructor` reads the inherited `Object.prototype.constructor`. The code then adds the value to a junk property and not to the breakdown (and in the breakdown it would concatenate strings). The model's alias table and breakdown have only their own entries, so such a leaf goes to the breakdown as a number.
- The group key is the string `id:name`, as in the code. An id containing `:` can therefore collide with another id and name pair, exactly as in the code.
- The 32-bit `int` columns of the transaction and usage rows are not modelled. Counts and balances are unbounded integers.
- `getTransactions` orders by `createdDate`. The model orders by log position, so ties between equal timestamps are not modelled. A `NaN` limit is a non-integer and gives 100, which the model covers. A limit passed as a string is not modelled.
- The alias table is a parameter of the derivation. Only `Derive` and the routing facts fix it to the service's table.
- `AccessControl.RequireAuth`: the redirect state only copies the route's inputs (`path`, `requiredPermission`, `requiredFeature`) next to `reason`. Only the reason is modelled.
- `AccessControl.Auth`: a `permissions` value that is truthy but not an array is not modelled. The state is an array or unset.
- `CreditLedger.GetTransactions`: its contract speaks of the member's transactions as a list, not of the rows' `createdDate`.
- The transaction types `consume` and `adjust` exist as `Kind` values. No operation in this model creates them.
- All other server services, controllers and UI views are outside this model.
