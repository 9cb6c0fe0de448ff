/**
 * The static table of model providers of internal/providers/providers.go
 * and its lookups by numeric ID: the first entry with the ID, or nothing.
 */
module Providers {
  import opened Wrappers

  /** A model or provider: its ID, its display label and its API value. */
  datatype ProviderModel = ProviderModel(id: int, displayName: string, value: string)

  datatype Provider = Provider(id: int, displayName: string, value: string, models: seq<ProviderModel>)

  /** The table, in its order. */
  const ProviderTable: seq<Provider> := [
    Provider(1, "Anthropic", "anthropic", [
      ProviderModel(1, "Claude Opus 4.1", "claude-opus-4-1"),
      ProviderModel(2, "Claude Sonnet 4.5", "claude-sonnet-4-5"),
      ProviderModel(3, "Claude Haiku 4.5", "claude-haiku-4-5")]),
    Provider(2, "Google", "google", [
      ProviderModel(1, "Gemini 2.5 Pro", "gemini-2.5-pro"),
      ProviderModel(2, "Gemini 2.5 Flash", "gemini-2.5-flash"),
      ProviderModel(3, "Gemini 2.5 Flash-Lite", "gemini-2.5-flash-lite")]),
    Provider(3, "OpenAI", "openai", [
      ProviderModel(1, "GPT-5", "gpt-5"),
      ProviderModel(2, "GPT-5 mini", "gpt-5-mini"),
      ProviderModel(3, "GPT-5 nano", "gpt-5-nano"),
      ProviderModel(4, "GPT-5 pro", "gpt-5-pro"),
      ProviderModel(5, "GPT-4.1", "gpt-4-1")])
  ]

  /** The IDs of a run of table entries, in order. */
  function Ids<T>(entries: seq<T>, id: T -> int): (r: seq<int>)
    ensures |r| == |entries| && forall k | 0 <= k < |r| :: r[k] == id(entries[k])
  {
    seq(|entries|, k requires 0 <= k < |entries| => id(entries[k]))
  }

  function ProviderId(p: Provider): int { p.id }

  function ModelId(m: ProviderModel): int { m.id }

  /** The linear search of the lookups: the first position holding `id`,
      or -1 when none does. */
  function FirstWithId(ids: seq<int>, id: int): (r: int)
    ensures -1 <= r < |ids|
    ensures r == -1 <==> id !in ids
    ensures r != -1 ==> ids[r] == id && forall j | 0 <= j < r :: ids[j] != id
  {
    if ids == [] then -1
    else if ids[0] == id then 0
    else
      var r := FirstWithId(ids[1..], id);
      if r == -1 then -1 else r + 1
  }

  /** IDs that never repeat. */
  predicate Distinct(ids: seq<int>) {
    forall i, j | 0 <= i < j < |ids| :: ids[i] != ids[j]
  }

  /** With distinct IDs the search finds the one position holding the ID. */
  lemma {:induction false} FirstWithIdFinds(ids: seq<int>, k: int)
    requires Distinct(ids) && 0 <= k < |ids|
    ensures FirstWithId(ids, ids[k]) == k
  {
  }

  /** `GetProvidersCount`: three providers. */
  function GetProvidersCount(): (r: int)
    ensures r == |GetProviders()| == 3
  {
    |ProviderTable|
  }

  /** `GetProviders`: the whole table. */
  function GetProviders(): seq<Provider> {
    ProviderTable
  }

  /** The first provider with the ID, or nothing. */
  function ProviderById(id: int): (r: Option<Provider>)
    ensures r.None? <==> forall k | 0 <= k < |ProviderTable| :: ProviderTable[k].id != id
    ensures r.Some? ==> r.value in ProviderTable && r.value.id == id
  {
    var i := FirstWithId(Ids(ProviderTable, ProviderId), id);
    if i == -1 then None else Some(ProviderTable[i])
  }

  /** `GetProviderModelsCount`: 0 for an unknown provider, else how many
      models it offers. */
  function GetProviderModelsCount(providerID: int): (r: int)
    ensures ProviderById(providerID).None? ==> r == 0
    ensures ProviderById(providerID).Some? ==> r == |ProviderById(providerID).value.models|
  {
    match ProviderById(providerID)
    case None => 0
    case Some(provider) => |provider.models|
  }

  /** Nothing for an unknown provider or model, else the provider's first
      model with the ID. */
  function ModelById(providerID: int, modelID: int): (r: Option<ProviderModel>)
    ensures ProviderById(providerID).None? ==> r.None?
    ensures ProviderById(providerID).Some? ==>
      var models := ProviderById(providerID).value.models;
      (r.None? <==> forall k | 0 <= k < |models| :: models[k].id != modelID)
      && (r.Some? ==> r.value in models && r.value.id == modelID)
  {
    match ProviderById(providerID)
    case None => None
    case Some(provider) =>
      var i := FirstWithId(Ids(provider.models, ModelId), modelID);
      if i == -1 then None else Some(provider.models[i])
  }

  /** `GetProvider`: the loop over the table that returns the first
      provider with the ID, or nothing when the loop runs out. */
  method GetProvider(id: int) returns (provider: Option<Provider>)
    ensures provider == ProviderById(id)
  {
    var i := 0;
    while i < |ProviderTable|
      invariant 0 <= i <= |ProviderTable|
      invariant forall j | 0 <= j < i :: ProviderTable[j].id != id
    {
      if ProviderTable[i].id == id {
        FirstWithIdIsFirst(Ids(ProviderTable, ProviderId), id, i);
        return Some(ProviderTable[i]);
      }
      i := i + 1;
    }
    return None;
  }

  /** `GetProviderModel`: nothing for an unknown provider; otherwise the
      loop over its models that returns the first one with the ID. */
  method GetProviderModel(providerID: int, modelID: int) returns (model: Option<ProviderModel>)
    ensures model == ModelById(providerID, modelID)
  {
    var provider := GetProvider(providerID);
    if provider.None? {
      return None;
    }
    var models := provider.value.models;
    var i := 0;
    while i < |models|
      invariant 0 <= i <= |models|
      invariant forall j | 0 <= j < i :: models[j].id != modelID
    {
      if models[i].id == modelID {
        FirstWithIdIsFirst(Ids(models, ModelId), modelID, i);
        return Some(models[i]);
      }
      i := i + 1;
    }
    return None;
  }

  /** A position holding the ID with no earlier one holding it is what the
      search finds. */
  lemma {:induction false} FirstWithIdIsFirst(ids: seq<int>, id: int, i: int)
    requires 0 <= i < |ids| && ids[i] == id
    requires forall j | 0 <= j < i :: ids[j] != id
    ensures FirstWithId(ids, id) == i
  {
    var r := FirstWithId(ids, id);
    assert r != -1;
  }

  /** The table's provider IDs are distinct, and so are the model IDs of
      each provider. */
  lemma {:induction false} TableIdsDistinct()
    ensures Distinct(Ids(ProviderTable, ProviderId))
    ensures forall p | 0 <= p < |ProviderTable| :: Distinct(Ids(ProviderTable[p].models, ModelId))
  {
  }

  /** So every entry of the table is what its IDs look up. */
  lemma {:induction false} LookupsFindEveryEntry(p: int, m: int)
    requires 0 <= p < |ProviderTable| && 0 <= m < |ProviderTable[p].models|
    ensures ProviderById(ProviderTable[p].id) == Some(ProviderTable[p])
    ensures GetProviderModelsCount(ProviderTable[p].id) == |ProviderTable[p].models|
    ensures ModelById(ProviderTable[p].id, ProviderTable[p].models[m].id) == Some(ProviderTable[p].models[m])
  {
    TableIdsDistinct();
    var ids := Ids(ProviderTable, ProviderId);
    FirstWithIdFinds(ids, p);
    var models := ProviderTable[p].models;
    FirstWithIdFinds(Ids(models, ModelId), m);
  }
}
