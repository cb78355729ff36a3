/** The aircraft performance catalog: a registry from model code to the model's
    performance charts, fuel constants and weight-and-balance geometry, with
    lookups, whole-record upsert, listing, and the merge of a saved copy. */
module Catalog {
  import opened Basics
  import opened Interpolation

  /** Takeoff and landing charts of one model. */
  datatype Performance = Performance(takeoff: Table, landing: Table)

  /** Fuel constants, in gallons per hour and gallons. */
  datatype FuelData = FuelData(gph: real, taxiStart: real, climb: real, reserve: real)

  /** Loading-station arms, in inches aft of the datum. */
  datatype Arms = Arms(empty: real, front: real, back: real, fuel: real, baggage: real)

  /** Certified weight (lb) and centre-of-gravity (in) limits. */
  datatype Limits = Limits(maxWeight: real, minWeight: real, cgForward: real, cgAft: real)

  datatype WeightBalance = WeightBalance(arms: Arms, limits: Limits)

  /** A sub-record of a model as stored: missing (`undefined` or `null`, the
      only falsy case), the empty placeholder object `{}` (which is truthy),
      or actual data. */
  datatype Part<+T> = Absent | Placeholder | Data(value: T)

  datatype AircraftModel = AircraftModel(
    name: string,
    category: string,
    performance: Part<Performance>,
    fuel: Part<FuelData>,
    weightBalance: Part<WeightBalance>)

  /** The registry: the model codes in the order the object's keys enumerate
      (insertion order), and the record stored under each code. */
  datatype Catalog = Catalog(codes: seq<string>, models: map<string, AircraftModel>)

  /** Each code listed once, and exactly the codes that have a record. */
  ghost predicate Valid(c: Catalog) {
    && (forall i, j :: 0 <= i < j < |c.codes| ==> c.codes[i] != c.codes[j])
    && (forall k :: k in c.models <==> k in c.codes)
  }

  // ---------------------------------------------------------------------------
  // Lookups: `models[code]?.part || null`

  /** `getPerformanceData`. */
  function GetPerformanceData(c: Catalog, code: string): (r: Part<Performance>)
    ensures code !in c.models ==> r == Absent
    ensures code in c.models ==> r == c.models[code].performance
  {
    if code in c.models then c.models[code].performance else Absent
  }

  /** `getFuelData`. */
  function GetFuelData(c: Catalog, code: string): (r: Part<FuelData>)
    ensures code !in c.models ==> r == Absent
    ensures code in c.models ==> r == c.models[code].fuel
  {
    if code in c.models then c.models[code].fuel else Absent
  }

  /** `getWeightBalanceData`. */
  function GetWeightBalanceData(c: Catalog, code: string): (r: Part<WeightBalance>)
    ensures code !in c.models ==> r == Absent
    ensures code in c.models ==> r == c.models[code].weightBalance
  {
    if code in c.models then c.models[code].weightBalance else Absent
  }

  // ---------------------------------------------------------------------------
  // Upsert

  /** `addModel`: the record under `code` becomes exactly `m` (no merge of
      fields); a new code is enumerated after the existing ones, a known code
      keeps its place. The persistence write that follows is not modelled. */
  function AddModel(c: Catalog, code: string, m: AircraftModel): (r: Catalog)
    requires Valid(c)
    ensures Valid(r)
    ensures code in r.models && r.models[code] == m
    ensures forall k :: k != code ==> (k in r.models <==> k in c.models)
    ensures forall k :: k != code && k in c.models ==> r.models[k] == c.models[k]
    ensures c.codes <= r.codes
    ensures code in c.models ==> r.codes == c.codes
    ensures code !in c.models ==> |r.codes| == |c.codes| + 1
  {
    Catalog(if code in c.models then c.codes else c.codes + [code], c.models[code := m])
  }

  /** After an upsert every lookup of that code returns the supplied parts, and
      lookups of other codes are unchanged. */
  lemma LookupsAfterAdd(c: Catalog, code: string, m: AircraftModel, other: string)
    requires Valid(c) && other != code
    ensures GetPerformanceData(AddModel(c, code, m), code) == m.performance
    ensures GetFuelData(AddModel(c, code, m), code) == m.fuel
    ensures GetWeightBalanceData(AddModel(c, code, m), code) == m.weightBalance
    ensures GetPerformanceData(AddModel(c, code, m), other) == GetPerformanceData(c, other)
    ensures GetFuelData(AddModel(c, code, m), other) == GetFuelData(c, other)
    ensures GetWeightBalanceData(AddModel(c, code, m), other) == GetWeightBalanceData(c, other)
  {
  }

  /** Last write wins: a second upsert of the same code erases the first entirely. */
  lemma LastWriteWins(c: Catalog, code: string, m1: AircraftModel, m2: AircraftModel)
    requires Valid(c)
    ensures AddModel(AddModel(c, code, m1), code, m2) == AddModel(c, code, m2)
  {
  }

  // ---------------------------------------------------------------------------
  // Listing

  /** One entry of the model picker. */
  datatype ModelInfo = ModelInfo(code: string, name: string, category: string)

  /** `getAvailableModels`: one entry per registered code, in key order, with
      name and category copied from that code's record. */
  function GetAvailableModels(c: Catalog): (r: seq<ModelInfo>)
    requires Valid(c)
    ensures |r| == |c.codes| == |c.models|
    ensures forall i :: 0 <= i < |r| ==>
      && r[i].code == c.codes[i]
      && r[i].code in c.models
      && r[i].name == c.models[r[i].code].name
      && r[i].category == c.models[r[i].code].category
    ensures forall code :: code in c.models ==> exists i :: 0 <= i < |r| && r[i].code == code
    ensures forall i, j :: 0 <= i < j < |r| ==> r[i].code != r[j].code
  {
    DistinctCodesCount(c);
    seq(|c.codes|, i requires 0 <= i < |c.codes| =>
      ModelInfo(c.codes[i], c.models[c.codes[i]].name, c.models[c.codes[i]].category))
  }

  /** A list of distinct elements has as many elements as its set. */
  lemma {:induction false} DistinctElementsCount<T>(s: seq<T>)
    requires forall i, j :: 0 <= i < j < |s| ==> s[i] != s[j]
    ensures |set x | x in s| == |s|
  {
    if |s| > 0 {
      var rest := s[1..];
      DistinctElementsCount(rest);
      assert (set x | x in s) == (set x | x in rest) + {s[0]};
      assert s[0] !in rest;
    }
  }

  lemma DistinctCodesCount(c: Catalog)
    requires Valid(c)
    ensures |c.models| == |c.codes|
  {
    DistinctElementsCount(c.codes);
    assert c.models.Keys == set x | x in c.codes;
  }

  // ---------------------------------------------------------------------------
  // Restoring a saved copy

  /** What the durable store yields for the catalog key: nothing, something
      that does not parse, or a parsed object of model records. */
  datatype Stored = NothingSaved | Unreadable | Saved(blob: Catalog)

  /** `Object.assign`: upsert the source's records one key at a time, in the
      source's key order. */
  function AssignAll(c: Catalog, keys: seq<string>, src: map<string, AircraftModel>): (r: Catalog)
    requires Valid(c)
    requires forall k :: k in keys ==> k in src
    ensures Valid(r)
    ensures r.models == c.models + map k | k in keys :: src[k]
    ensures c.codes <= r.codes
    ensures forall k :: k in r.codes <==> k in c.codes || k in keys
    decreases |keys|
  {
    NoKeysNoRecords(keys, src);
    if |keys| == 0 then
      c
    else
      var c' := AddModel(c, keys[0], src[keys[0]]);
      var r := AssignAll(c', keys[1..], src);
      AssignStep(c.models, keys, src);
      assert forall k :: k in keys <==> k == keys[0] || k in keys[1..];
      r
  }

  lemma NoKeysNoRecords(keys: seq<string>, src: map<string, AircraftModel>)
    requires forall k :: k in keys ==> k in src
    ensures |keys| == 0 ==> (map k | k in keys :: src[k]) == map[]
  {
  }

  lemma AssignStep(m: map<string, AircraftModel>, keys: seq<string>, src: map<string, AircraftModel>)
    requires |keys| > 0 && forall k :: k in keys ==> k in src
    ensures m[keys[0] := src[keys[0]]] + (map k | k in keys[1..] :: src[k])
         == m + (map k | k in keys :: src[k])
  {
    var lhs := m[keys[0] := src[keys[0]]] + (map k | k in keys[1..] :: src[k]);
    var rhs := m + (map k | k in keys :: src[k]);
    assert forall k :: k in keys <==> k == keys[0] || k in keys[1..];
    assert lhs.Keys == rhs.Keys;
    forall k | k in lhs
      ensures lhs[k] == rhs[k]
    {
    }
  }

  /** `loadFromStorage`: a saved copy is merged over the current registry, key
      by key; without a readable copy the registry is unchanged. Saved records
      replace current ones under the same code, built-in ones included. */
  function LoadFromStorage(c: Catalog, stored: Stored): (r: Catalog)
    requires Valid(c)
    requires stored.Saved? ==> Valid(stored.blob)
    ensures Valid(r)
    ensures !stored.Saved? ==> r == c
    ensures stored.Saved? ==> r.models == c.models + stored.blob.models
    ensures c.codes <= r.codes
  {
    match stored
    case Saved(blob) =>
      assert forall k :: k in blob.codes ==> k in blob.models;
      var r := AssignAll(c, blob.codes, blob.models);
      ListedRecords(blob);
      r
    case _ => c
  }

  /** A valid catalog's records are exactly those of its listed codes. */
  lemma ListedRecords(c: Catalog)
    requires Valid(c)
    ensures (map k | k in c.codes :: c.models[k]) == c.models
  {
  }

  /** Load merge, code by code: saved codes take the saved record, other codes
      keep theirs, and no code is lost. */
  lemma LoadMergePerCode(c: Catalog, blob: Catalog, code: string)
    requires Valid(c) && Valid(blob)
    ensures var r := LoadFromStorage(c, Saved(blob));
      && (code in r.models <==> code in c.models || code in blob.models)
      && (code in blob.models ==> r.models[code] == blob.models[code])
      && (code !in blob.models && code in c.models ==> r.models[code] == c.models[code])
  {
  }
}
