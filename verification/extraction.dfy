/**
 * `extractUsageEntriesFromPayload`: a walk over an arbitrary payload that
 * picks at most one usage object per object node, and never looks below a
 * node that yielded one. At each node the preferred usage container is the
 * one with the best (priority, derived total); with none, the node itself
 * counts when it carries a usage-signal key.
 */
module Extraction {
  import opened Wrappers
  import opened Payload
  import opened KeyText
  import opened Derivation

  // ---------------------------------------------------------------------------
  // Container keys

  /** `usageContainerKeys`. */
  const ContainerKeys: seq<string> := [
    "usage", "usagemetadata", "usage_metadata", "estimatedtokenusage", "estimated_token_usage",
    "tokenusage", "token_usage", "amazon-bedrock-invocationmetrics"]

  /** `actualUsageContainerKeys`. */
  const ActualKeys: seq<string> := ["usage", "usagemetadata", "usage_metadata", "amazon-bedrock-invocationmetrics"]

  /** `estimatedUsageContainerKeys`. */
  const EstimatedKeys: seq<string> := ["estimatedtokenusage", "estimated_token_usage", "tokenusage", "token_usage"]

  /** `getCandidatePriority`. */
  function Priority(normalizedKey: string): (r: int)
    ensures 1 <= r <= 3
  {
    if normalizedKey in ActualKeys then 1
    else if normalizedKey in EstimatedKeys then 2
    else 3
  }

  /** The container set is exactly the actual keys together with the estimated keys. */
  lemma ContainerKeysSplit(key: string)
    ensures key in ContainerKeys <==> key in ActualKeys || key in EstimatedKeys
  {
  }

  /** No key is both an actual and an estimated container. */
  lemma ActualEstimatedDisjoint(key: string)
    ensures !(key in ActualKeys && key in EstimatedKeys)
  {
  }

  /** A container key has priority 1 (actual) or 2 (estimated): priority 3 is never assigned to a candidate. */
  lemma ContainerPriority(key: string)
    requires key in ContainerKeys
    ensures Priority(key) == 1 <==> key in ActualKeys
    ensures Priority(key) == 2 <==> key in EstimatedKeys
    ensures Priority(key) != 3
  {
    ContainerKeysSplit(key);
    ActualEstimatedDisjoint(key);
  }

  // ---------------------------------------------------------------------------
  // Model names

  /** `modelKeys`, in the order they are tried. */
  const ModelKeys: seq<string> := ["model", "modelName", "model_name"]

  /** `typeof v === 'string' && v`: a non-empty string. */
  predicate IsName(v: Option<Json>) {
    v.Some? && v.value.Str? && v.value.s != ""
  }

  /** The first of `keys` whose property on `v` is a non-empty string. */
  function NameIn(v: Json, keys: seq<string>): (r: Option<string>)
    ensures r.None? <==> forall k :: k in keys ==> !IsName(Property(v, k))
    ensures r.Some? ==> exists i :: 0 <= i < |keys| && Property(v, keys[i]) == Some(Str(r.value))
                                   && r.value != "" && forall j :: 0 <= j < i ==> !IsName(Property(v, keys[j]))
    decreases |keys|
  {
    if |keys| == 0 then None
    else if IsName(Property(v, keys[0])) then Some(Property(v, keys[0]).value.s)
    else
      var r := NameIn(v, keys[1..]);
      assert forall i :: 0 <= i < |keys[1..]| ==> keys[1..][i] == keys[i + 1];
      assert forall k :: k in keys ==> k == keys[0] || k in keys[1..];
      r
  }

  /** `a || b` on two property reads. */
  function Or(a: Option<Json>, b: Option<Json>): (r: Option<Json>)
    ensures a.Some? && Truthy(a.value) ==> r == a
    ensures !(a.Some? && Truthy(a.value)) ==> r == b
  {
    if a.Some? && Truthy(a.value) then a else b
  }

  /** `obj.response_metadata || obj.responseMetadata`. */
  function Metadata(v: Json): Option<Json> {
    Or(Property(v, "response_metadata"), Property(v, "responseMetadata"))
  }

  /** `getModelFromObject(obj, inheritedModel)`. */
  function ModelOf(v: Json, inherited: Option<string>): (r: Option<string>)
    ensures r == inherited || (r.Some? && r.value != "")
    ensures inherited.Some? ==> r.Some?
  {
    var own := NameIn(v, ModelKeys);
    if own.Some? then own
    else
      var meta := Metadata(v);
      if meta.Some? && Truthy(meta.value) && IsContainer(meta.value) && NameIn(meta.value, ModelKeys).Some? then
        NameIn(meta.value, ModelKeys)
      else inherited
  }

  /** The first model key that names a model on `v` decides the name. */
  lemma FirstNameWins(v: Json, i: int, s: string)
    requires 0 <= i < |ModelKeys| && Property(v, ModelKeys[i]) == Some(Str(s)) && s != ""
    requires forall j :: 0 <= j < i ==> !IsName(Property(v, ModelKeys[j]))
    ensures NameIn(v, ModelKeys) == Some(s)
  {
    assert IsName(Property(v, ModelKeys[i]));
    var r := NameIn(v, ModelKeys);
    var k :| 0 <= k < |ModelKeys| && Property(v, ModelKeys[k]) == Some(Str(r.value))
             && r.value != "" && forall j :: 0 <= j < k ==> !IsName(Property(v, ModelKeys[j]));
    assert IsName(Property(v, ModelKeys[k]));
    assert k == i;
  }

  /**
   * A name on the node itself is taken, whatever else is there: the first of
   * `model`, `modelName`, `model_name` holding a non-empty string.
   */
  lemma OwnModelWins(v: Json, inherited: Option<string>, i: int, s: string)
    requires 0 <= i < |ModelKeys| && Property(v, ModelKeys[i]) == Some(Str(s)) && s != ""
    requires forall j :: 0 <= j < i ==> !IsName(Property(v, ModelKeys[j]))
    ensures ModelOf(v, inherited) == Some(s)
  {
    FirstNameWins(v, i, s);
  }

  /**
   * The metadata consulted: `response_metadata` when it is truthy, and
   * `responseMetadata` otherwise.
   */
  lemma MetadataSource(v: Json)
    ensures var rm := Property(v, "response_metadata");
            rm.Some? && Truthy(rm.value) ==> Metadata(v) == rm
    ensures var rm := Property(v, "response_metadata");
            !(rm.Some? && Truthy(rm.value)) ==> Metadata(v) == Property(v, "responseMetadata")
  {
  }

  /**
   * Without a name on the node, the first model key naming a model in the
   * metadata object (`response_metadata`, or `responseMetadata` when that is
   * absent or falsy) is taken over the inherited one.
   */
  lemma MetadataModelWins(v: Json, inherited: Option<string>, meta: Json, i: int, s: string)
    requires forall k :: k in ModelKeys ==> !IsName(Property(v, k))
    requires Metadata(v) == Some(meta) && meta.Obj?
    requires 0 <= i < |ModelKeys| && Property(meta, ModelKeys[i]) == Some(Str(s)) && s != ""
    requires forall j :: 0 <= j < i ==> !IsName(Property(meta, ModelKeys[j]))
    ensures ModelOf(v, inherited) == Some(s)
  {
    FirstNameWins(meta, i, s);
  }

  /** With a name neither on the node nor in its metadata, the inherited model is kept. */
  lemma InheritedModelKept(v: Json, inherited: Option<string>)
    requires forall k :: k in ModelKeys ==> !IsName(Property(v, k))
    requires Metadata(v).None? || forall k :: k in ModelKeys ==> !IsName(Property(Metadata(v).value, k))
    ensures ModelOf(v, inherited) == inherited
  {
  }

  // ---------------------------------------------------------------------------
  // Usage signals

  /** The keys whose presence makes a node a usage object in its own right. */
  const SignalKeys: seq<string> := [
    "input_tokens", "inputTokens", "output_tokens", "outputTokens", "total_tokens", "prompt_tokens",
    "promptTokens", "completion_tokens", "completionTokens", "inputTokenCount", "outputTokenCount", "totalTokens"]

  /** `hasUsageSignals(obj)`. */
  predicate HasUsageSignals(fields: seq<(string, Json)>): (r: bool)
    ensures r <==> exists i :: 0 <= i < |fields| && fields[i].0 in SignalKeys
  {
    var r := exists i :: 0 <= i < |SignalKeys| && HasKey(fields, SignalKeys[i]);
    assert r ==> exists i :: 0 <= i < |fields| && fields[i].0 in SignalKeys by {
      if r {
        var i :| 0 <= i < |SignalKeys| && HasKey(fields, SignalKeys[i]);
        var j :| 0 <= j < |fields| && fields[j].0 == SignalKeys[i];
        assert fields[j].0 in SignalKeys;
      }
    }
    assert (exists i :: 0 <= i < |fields| && fields[i].0 in SignalKeys) ==> r by {
      if exists i :: 0 <= i < |fields| && fields[i].0 in SignalKeys {
        var j :| 0 <= j < |fields| && fields[j].0 in SignalKeys;
        var i :| 0 <= i < |SignalKeys| && SignalKeys[i] == fields[j].0;
        assert HasKey(fields, SignalKeys[i]);
      }
    }
    r
  }

  // ---------------------------------------------------------------------------
  // Candidates

  datatype Candidate = Candidate(usage: Json, source: string, priority: int, totalTokens: int)

  datatype Entry = Entry(usage: Json, model: Option<string>, source: string)

  /** A field is a candidate when its value is an object or array and its normalised key is a container key. */
  predicate Qualifies(field: (string, Json)) {
    Truthy(field.1) && IsContainer(field.1) && CamelToSnake(field.0) in ContainerKeys
  }

  /** The candidate a field contributes, if any. */
  function Slot(field: (string, Json)): (r: Option<Candidate>)
    ensures r.Some? <==> Qualifies(field)
    ensures r.Some? ==> r.value.source in ContainerKeys && IsContainer(r.value.usage)
  {
    if Qualifies(field) then
      var key := CamelToSnake(field.0);
      Some(Candidate(field.1, key, Priority(key), Derive(field.1).totalTokens))
    else None
  }

  /** The candidates of an object, one slot per field in key order. */
  function Slots(fields: seq<(string, Json)>): (r: seq<Option<Candidate>>)
    ensures |r| == |fields| && forall i :: 0 <= i < |fields| ==> r[i] == Slot(fields[i])
  {
    seq(|fields|, i requires 0 <= i < |fields| => Slot(fields[i]))
  }

  /** Every candidate has priority 1 or 2, and 1 exactly for the actual containers. */
  lemma SlotPriority(field: (string, Json))
    requires Slot(field).Some?
    ensures Slot(field).value.priority == 1 <==> Slot(field).value.source in ActualKeys
    ensures Slot(field).value.priority == 2 <==> Slot(field).value.source in EstimatedKeys
  {
    ContainerPriority(CamelToSnake(field.0));
  }

  /** The sort comparator: lower priority first, then larger total first. */
  predicate Better(a: Candidate, b: Candidate) {
    a.priority < b.priority || (a.priority == b.priority && a.totalTokens > b.totalTokens)
  }

  /**
   * Slot `i` is what a stable sort of the candidates puts first: it holds a
   * candidate, no candidate sorts before it, and every earlier candidate
   * sorts strictly after it.
   */
  predicate Heads(slots: seq<Option<Candidate>>, i: int) {
    && 0 <= i < |slots| && slots[i].Some?
    && (forall j :: 0 <= j < |slots| && slots[j].Some? ==> !Better(slots[j].value, slots[i].value))
    && (forall j :: 0 <= j < i && slots[j].Some? ==> Better(slots[i].value, slots[j].value))
  }

  /** At most one slot heads the sorted candidates. */
  lemma HeadUnique(slots: seq<Option<Candidate>>, i: int, k: int)
    requires Heads(slots, i) && Heads(slots, k)
    ensures i == k
  {
  }

  /** The head of the sorted candidates among `slots[..n]`, scanning in key order. */
  function Scan(slots: seq<Option<Candidate>>, n: nat): (r: Option<nat>)
    requires n <= |slots|
    ensures r.None? <==> forall j :: 0 <= j < n ==> slots[j].None?
    ensures r.Some? ==> Heads(slots[..n], r.value)
    decreases n
  {
    if n == 0 then None
    else
      var b := Scan(slots, n - 1);
      assert forall j :: 0 <= j < n - 1 ==> slots[..n - 1][j] == slots[..n][j];
      if slots[n - 1].None? then b
      else if b.None? || Better(slots[n - 1].value, slots[b.value].value) then Some(n - 1)
      else b
  }

  /** `pickPreferredUsageEntry(obj, model)`. */
  function PickPreferred(fields: seq<(string, Json)>, model: Option<string>): (r: Option<Entry>)
    ensures r.Some? ==> r.value.model == model
    ensures r.Some? ==> r.value.source in ContainerKeys || r.value.source == "direct_usage_object"
    ensures r.Some? ==> IsContainer(r.value.usage)
  {
    var slots := Slots(fields);
    var best := Scan(slots, |slots|);
    assert slots[..|slots|] == slots;
    if best.None? then
      if HasUsageSignals(fields) then Some(Entry(Obj(fields), model, "direct_usage_object")) else None
    else
      var c := slots[best.value].value;
      Some(Entry(c.usage, model, c.source))
  }

  /** When some field qualifies, the entry is the field heading the sorted candidates. */
  lemma PickedIsHead(fields: seq<(string, Json)>, model: Option<string>, i: int)
    requires Heads(Slots(fields), i)
    ensures PickPreferred(fields, model) == Some(Entry(fields[i].1, model, CamelToSnake(fields[i].0)))
  {
    var slots := Slots(fields);
    assert slots[..|slots|] == slots;
    var best := Scan(slots, |slots|);
    HeadUnique(slots, i, best.value);
  }

  /** When some field qualifies, some field heads the sorted candidates. */
  lemma HeadExists(fields: seq<(string, Json)>, j: int)
    requires 0 <= j < |fields| && Qualifies(fields[j])
    ensures exists i :: Heads(Slots(fields), i)
  {
    var slots := Slots(fields);
    assert slots[..|slots|] == slots;
    assert slots[j].Some?;
    var best := Scan(slots, |slots|);
    assert Heads(slots, best.value);
  }

  /** Without a qualifying field, the node itself is the entry exactly when it carries a usage signal. */
  lemma NoCandidate(fields: seq<(string, Json)>, model: Option<string>)
    requires forall j :: 0 <= j < |fields| ==> !Qualifies(fields[j])
    ensures HasUsageSignals(fields) ==> PickPreferred(fields, model) == Some(Entry(Obj(fields), model, "direct_usage_object"))
    ensures !HasUsageSignals(fields) ==> PickPreferred(fields, model).None?
  {
    var slots := Slots(fields);
    assert slots[..|slots|] == slots;
  }

  /** An actual container always beats an estimated one, whatever their totals. */
  lemma ActualBeatsEstimated(fields: seq<(string, Json)>, i: int, a: int)
    requires Heads(Slots(fields), i)
    requires 0 <= a < |fields| && Qualifies(fields[a]) && CamelToSnake(fields[a].0) in ActualKeys
    ensures CamelToSnake(fields[i].0) in ActualKeys
  {
    SlotPriority(fields[i]);
    SlotPriority(fields[a]);
  }

  /** Among candidates of the head's priority, none has a larger total, and any earlier one has a smaller total. */
  lemma LargerTotalWins(slots: seq<Option<Candidate>>, i: int, j: int)
    requires Heads(slots, i)
    requires 0 <= j < |slots| && slots[j].Some? && slots[j].value.priority == slots[i].value.priority
    ensures slots[j].value.totalTokens <= slots[i].value.totalTokens
    ensures j < i ==> slots[j].value.totalTokens < slots[i].value.totalTokens
  {
  }

  // ---------------------------------------------------------------------------
  // The walk

  /**
   * `walk(value, currentModel)`. Every entry's usage is an object or array,
   * its source is a container key or `direct_usage_object`, and a model known
   * at the top is never lost on the way down.
   */
  function Walk(v: Json, model: Option<string>): (r: seq<Entry>)
    ensures AllWellFormed(r, model)
    decreases v, 2
  {
    if !Truthy(v) || !IsContainer(v) then []
    else if v.Arr? then WalkItems(v, 0, model)
    else
      var next := ModelOf(v, model);
      var picked := PickPreferred(v.fields, next);
      if picked.Some? then [picked.value] else WalkFields(v, 0, next)
  }

  /** `for (const item of value) walk(item, currentModel)` from item `i` on. */
  function WalkItems(v: Json, i: nat, model: Option<string>): (r: seq<Entry>)
    requires v.Arr?
    ensures AllWellFormed(r, model)
    decreases v, 1, |v.items| - i
  {
    if i >= |v.items| then []
    else
      var head := Walk(v.items[i], model);
      var rest := WalkItems(v, i + 1, model);
      AppendWellFormed(head, rest, model);
      head + rest
  }

  /** `for (const child of Object.values(value))`, skipping non-objects, from field `i` on. */
  function WalkFields(v: Json, i: nat, model: Option<string>): (r: seq<Entry>)
    requires v.Obj?
    ensures AllWellFormed(r, model)
    decreases v, 1, |v.fields| - i
  {
    if i >= |v.fields| then []
    else
      var child := v.fields[i].1;
      var rest := WalkFields(v, i + 1, model);
      if !Truthy(child) || !IsContainer(child) then rest
      else
        var head := Walk(child, model);
        AppendWellFormed(head, rest, model);
        head + rest
  }

  /** `extractUsageEntriesFromPayload(payload)`. */
  function Extract(payload: Json): seq<Entry> {
    Walk(payload, None)
  }

  /** The entries of a list of values walked one after another: the reference for arrays. */
  function WalkAll(items: seq<Json>, model: Option<string>): seq<Entry>
    decreases |items|
  {
    if |items| == 0 then [] else Walk(items[0], model) + WalkAll(items[1..], model)
  }

  lemma {:induction false} WalkAllAppend(a: seq<Json>, b: seq<Json>, model: Option<string>)
    ensures WalkAll(a + b, model) == WalkAll(a, model) + WalkAll(b, model)
    decreases |a|
  {
    if |a| == 0 {
      assert a + b == b;
    } else {
      ConsOfAppend(a, b);
      WalkAllAppend(a[1..], b, model);
      ConcatAssoc(Walk(a[0], model), WalkAll(a[1..], model), WalkAll(b, model));
    }
  }

  lemma ConsOfAppend(a: seq<Json>, b: seq<Json>)
    requires |a| > 0
    ensures (a + b)[0] == a[0] && (a + b)[1..] == a[1..] + b
  {
    assert (a + b)[1..] == a[1..] + b;
  }

  lemma ConcatAssoc(h: seq<Entry>, x: seq<Entry>, y: seq<Entry>)
    ensures h + (x + y) == (h + x) + y
  {
  }

  /** The children the descent loop visits: the truthy object and array values, in field order. */
  function ChildContainers(fields: seq<(string, Json)>): (r: seq<Json>)
    ensures forall k :: 0 <= k < |r| ==> Truthy(r[k]) && IsContainer(r[k])
    decreases |fields|
  {
    if |fields| == 0 then []
    else
      var c := fields[0].1;
      (if Truthy(c) && IsContainer(c) then [c] else []) + ChildContainers(fields[1..])
  }

  // ---------------------------------------------------------------------------
  // Properties of the walk

  /** Null, booleans, numbers and strings yield nothing. */
  lemma ScalarYieldsNothing(v: Json, model: Option<string>)
    requires !IsContainer(v)
    ensures Walk(v, model) == []
  {
  }

  lemma {:induction false} ItemsAreAll(v: Json, i: nat, model: Option<string>)
    requires v.Arr? && i <= |v.items|
    ensures WalkItems(v, i, model) == WalkAll(v.items[i..], model)
    decreases |v.items| - i
  {
    if i < |v.items| {
      ItemsAreAll(v, i + 1, model);
      assert v.items[i..][1..] == v.items[i + 1..];
    }
  }

  /** An array yields the entries of its items, in order, each walked with the same model. */
  lemma ArrayConcatenates(items: seq<Json>, model: Option<string>)
    ensures Walk(Arr(items), model) == WalkAll(items, model)
  {
    ItemsAreAll(Arr(items), 0, model);
    assert items[0..] == items;
  }

  /** A node that yields an entry yields only that entry: nothing below it is visited. */
  lemma EntryStopsDescent(fields: seq<(string, Json)>, model: Option<string>, e: Entry)
    requires PickPreferred(fields, ModelOf(Obj(fields), model)) == Some(e)
    ensures Walk(Obj(fields), model) == [e]
  {
    var v := Obj(fields);
    assert Truthy(v) && IsContainer(v) && !v.Arr?;
  }

  lemma {:induction false} FieldsAreChildren(v: Json, i: nat, model: Option<string>)
    requires v.Obj? && i <= |v.fields|
    ensures WalkFields(v, i, model) == WalkAll(ChildContainers(v.fields[i..]), model)
    decreases |v.fields| - i
  {
    if i < |v.fields| {
      FieldsAreChildren(v, i + 1, model);
      assert v.fields[i..][1..] == v.fields[i + 1..];
      var child := v.fields[i].1;
      var rest := ChildContainers(v.fields[i + 1..]);
      if Truthy(child) && IsContainer(child) {
        assert ChildContainers(v.fields[i..]) == [child] + rest;
        assert ([child] + rest)[1..] == rest;
      } else {
        assert ChildContainers(v.fields[i..]) == [] + rest;
        assert [] + rest == rest;
      }
    } else {
      assert v.fields[i..] == [];
    }
  }

  /**
   * A node that yields no entry of its own is descended into: its entries are
   * those of its truthy object and array children, in field order, each walked
   * with the node's model.
   */
  lemma NoEntryDescends(fields: seq<(string, Json)>, model: Option<string>)
    requires PickPreferred(fields, ModelOf(Obj(fields), model)).None?
    ensures Walk(Obj(fields), model) == WalkAll(ChildContainers(fields), ModelOf(Obj(fields), model))
  {
    var v := Obj(fields);
    assert Truthy(v) && IsContainer(v) && !v.Arr?;
    FieldsAreChildren(v, 0, ModelOf(v, model));
    assert fields[0..] == fields;
  }

  /** What every entry of a walk looks like. */
  predicate WellFormed(e: Entry) {
    IsContainer(e.usage) && (e.source in ContainerKeys || e.source == "direct_usage_object")
  }

  /** What is promised of the entries of a walk with model `model`. */
  predicate AllWellFormed(es: seq<Entry>, model: Option<string>) {
    forall k :: 0 <= k < |es| ==> WellFormed(es[k]) && (model.Some? ==> es[k].model.Some?)
  }

  lemma AppendWellFormed(a: seq<Entry>, b: seq<Entry>, model: Option<string>)
    requires AllWellFormed(a, model) && AllWellFormed(b, model)
    ensures AllWellFormed(a + b, model)
  {
    assert forall k :: 0 <= k < |a + b| ==> (a + b)[k] == if k < |a| then a[k] else b[k - |a|];
  }

  // ---------------------------------------------------------------------------
  // Container keys as written

  /**
   * `amazon-bedrock-invocationMetrics` gains an underscore before `M` and so
   * is longer than every container key: the Bedrock metrics container, as
   * the provider spells it, is never a candidate.
   */
  lemma BedrockKeyNeverContainer(key: string)
    requires key == "amazon-bedrock-invocationMetrics"
    ensures CamelToSnake(key) !in ContainerKeys
  {
    assert |key| == 32 && IsUpper(key[25]);
    MarkUpperLonger(key, 25);
    assert forall k :: k in ContainerKeys ==> |k| <= 32;
  }

  /** A camelCase key of two lower-case words becomes the snake_case key. */
  lemma CamelOneCapital(a: string, x: char, b: string)
    requires LowerWord(a) && LowerWord(b) && IsUpper(x)
    ensures CamelToSnake(a + [x] + b) == a + ['_', ToLower(x)] + b
  {
    CamelOneMarked(a, x, b);
    var marked := a + ['_', x] + b;
    var lowered := Lower(marked);
    assert forall i :: 0 <= i < |marked| ==> lowered[i] == (a + ['_', ToLower(x)] + b)[i];
  }

  /** `usageMetadata` normalises to `usage_metadata`, an actual container. */
  lemma UsageMetadataIsActual(key: string)
    requires key == "usageMetadata"
    ensures CamelToSnake(key) == "usage_metadata" && CamelToSnake(key) in ActualKeys
  {
    assert key == "usage" + ['M'] + "etadata";
    CamelOneCapital("usage", 'M', "etadata");
    assert "usage" + ['_', ToLower('M')] + "etadata" == "usage_metadata";
  }
}
