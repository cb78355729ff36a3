/** The POH digitiser. Its three extractors are stand-ins that answer only for
    the Cessna 150N, by copying that model's own sub-records out of the
    catalog; a digitisation succeeds when all three succeed and then writes
    the extracted parts back. The document argument is never read and is not
    modelled. */
module PohExtractor {
  import opened Basics
  import opened Catalog
  import Seed

  /** The one model the stand-in extractors answer for. */
  const ReferenceCode: string := "C150N"

  /** `{success: true, data}` or `{success: false, error}`. */
  datatype Extraction<+T> = Extracted(data: T) | Failed(error: string)

  /** The shared shape of the three extractors: for the reference code, the
      part read from the catalog's reference record; for any other code, the
      "no data" answer; and when the reference record itself is missing, the
      property read throws and the catch branch answers with `failure`. */
  function ExtractPart<T>(c: Catalog, code: string, part: AircraftModel -> T, failure: string, noData: string)
    : (r: Extraction<T>)
    ensures r.Extracted? <==> code == ReferenceCode && ReferenceCode in c.models
    ensures r.Extracted? ==> r.data == part(c.models[ReferenceCode])
    ensures r.Failed? ==> r.error == if code == ReferenceCode then failure else noData
  {
    if code != ReferenceCode then Failed(noData)
    else if ReferenceCode in c.models then Extracted(part(c.models[ReferenceCode]))
    else Failed(failure)
  }

  /** `extractPerformanceData`. */
  function ExtractPerformanceData(c: Catalog, code: string): (r: Extraction<Part<Performance>>)
    ensures r.Extracted? <==> code == ReferenceCode && ReferenceCode in c.models
    ensures r.Extracted? ==> r.data == GetPerformanceData(c, code)
    ensures r.Failed? && code != ReferenceCode ==> r.error == "No performance data available for this model"
    ensures r.Failed? && code == ReferenceCode ==> r.error == "Failed to extract performance data"
  {
    ExtractPart(c, code, (m: AircraftModel) => m.performance,
      "Failed to extract performance data", "No performance data available for this model")
  }

  /** `extractFuelData`. */
  function ExtractFuelData(c: Catalog, code: string): (r: Extraction<Part<FuelData>>)
    ensures r.Extracted? <==> code == ReferenceCode && ReferenceCode in c.models
    ensures r.Extracted? ==> r.data == GetFuelData(c, code)
    ensures r.Failed? && code != ReferenceCode ==> r.error == "No fuel data available for this model"
    ensures r.Failed? && code == ReferenceCode ==> r.error == "Failed to extract fuel data"
  {
    ExtractPart(c, code, (m: AircraftModel) => m.fuel,
      "Failed to extract fuel data", "No fuel data available for this model")
  }

  /** `extractWeightBalanceData`. */
  function ExtractWeightBalanceData(c: Catalog, code: string): (r: Extraction<Part<WeightBalance>>)
    ensures r.Extracted? <==> code == ReferenceCode && ReferenceCode in c.models
    ensures r.Extracted? ==> r.data == GetWeightBalanceData(c, code)
    ensures r.Failed? && code != ReferenceCode ==> r.error == "No W&B data available for this model"
    ensures r.Failed? && code == ReferenceCode ==> r.error == "Failed to extract W&B data"
  {
    ExtractPart(c, code, (m: AircraftModel) => m.weightBalance,
      "Failed to extract W&B data", "No W&B data available for this model")
  }

  /** The results record handed to the catalog update; a missing member
      (`null`) counts as not successful. The timestamp is not modelled. */
  datatype Results = Results(
    model: string,
    performance: Option<Extraction<Part<Performance>>>,
    fuel: Option<Extraction<Part<FuelData>>>,
    weightBalance: Option<Extraction<Part<WeightBalance>>>,
    success: bool)

  /** The part a result writes: the extracted data on success, otherwise the
      part already there. */
  function Overlay<T>(current: Part<T>, result: Option<Extraction<Part<T>>>): (p: Part<T>)
    ensures result.Some? && result.value.Extracted? ==> p == result.value.data
    ensures !(result.Some? && result.value.Extracted?) ==> p == current
  {
    match result
    case Some(Extracted(d)) => d
    case _ => current
  }

  /** The record a code starts from when it is not registered yet: named by
      its code, category "Unknown", every part the empty placeholder. */
  function Skeleton(code: string): AircraftModel {
    AircraftModel(code, "Unknown", Placeholder, Placeholder, Placeholder)
  }

  /** `updateAircraftData`: register a skeleton when the code is unknown, then
      overwrite exactly the parts whose extraction succeeded. Name, category
      and every other code are left alone. The persistence write is not
      modelled. */
  function UpdateAircraftData(c: Catalog, code: string, results: Results): (r: Catalog)
    requires Valid(c)
    ensures Valid(r)
    ensures code in r.models
    ensures var before := if code in c.models then c.models[code] else Skeleton(code);
      && r.models[code].name == before.name
      && r.models[code].category == before.category
      && r.models[code].performance == Overlay(before.performance, results.performance)
      && r.models[code].fuel == Overlay(before.fuel, results.fuel)
      && r.models[code].weightBalance == Overlay(before.weightBalance, results.weightBalance)
    ensures forall k :: k != code ==> (k in r.models <==> k in c.models)
    ensures forall k :: k != code && k in c.models ==> r.models[k] == c.models[k]
    ensures code in c.models ==> r.codes == c.codes
    ensures code !in c.models ==> r.codes == c.codes + [code]
  {
    var base := if code in c.models then c else AddModel(c, code, Skeleton(code));
    var m := base.models[code];
    var updated := m.(
      performance := Overlay(m.performance, results.performance),
      fuel := Overlay(m.fuel, results.fuel),
      weightBalance := Overlay(m.weightBalance, results.weightBalance));
    AddModel(base, code, updated)
  }

  /** An update whose extractions all failed still registers the code, as a
      skeleton when it was unknown, and otherwise changes nothing. */
  lemma FailedUpdateOnlyRegisters(c: Catalog, code: string, results: Results)
    requires Valid(c)
    requires results.performance.None? || results.performance.value.Failed?
    requires results.fuel.None? || results.fuel.value.Failed?
    requires results.weightBalance.None? || results.weightBalance.value.Failed?
    ensures code in c.models ==> UpdateAircraftData(c, code, results) == c
    ensures code !in c.models ==> UpdateAircraftData(c, code, results) == AddModel(c, code, Skeleton(code))
  {
    var r := UpdateAircraftData(c, code, results);
    if code in c.models {
      assert r.models == c.models;
    } else {
      assert r.models == AddModel(c, code, Skeleton(code)).models;
    }
  }

  /** Writing the same results twice is the same as writing them once. */
  lemma UpdateIdempotent(c: Catalog, code: string, results: Results)
    requires Valid(c)
    ensures var once := UpdateAircraftData(c, code, results);
      UpdateAircraftData(once, code, results) == once
  {
    var once := UpdateAircraftData(c, code, results);
    var twice := UpdateAircraftData(once, code, results);
    assert twice.models == once.models;
  }

  // ---------------------------------------------------------------------------
  // Digitisation

  datatype Digitized = Digitized(results: Results, catalog: Catalog)

  /** `digitizePOH`: run the three extractors, report success only when all
      three succeeded, and write the results back only then. */
  function DigitizePOH(c: Catalog, code: string): (r: Digitized)
    requires Valid(c)
    ensures Valid(r.catalog)
    ensures r.results.model == code
    ensures r.results.performance == Some(ExtractPerformanceData(c, code))
    ensures r.results.fuel == Some(ExtractFuelData(c, code))
    ensures r.results.weightBalance == Some(ExtractWeightBalanceData(c, code))
    ensures r.results.success <==>
      && ExtractPerformanceData(c, code).Extracted?
      && ExtractFuelData(c, code).Extracted?
      && ExtractWeightBalanceData(c, code).Extracted?
    ensures r.results.success ==> r.catalog == UpdateAircraftData(c, code, r.results)
    ensures !r.results.success ==> r.catalog == c
  {
    var perf := ExtractPerformanceData(c, code);
    var fuel := ExtractFuelData(c, code);
    var wb := ExtractWeightBalanceData(c, code);
    var success := perf.Extracted? && fuel.Extracted? && wb.Extracted?;
    var results := Results(code, Some(perf), Some(fuel), Some(wb), success);
    Digitized(results, if success then UpdateAircraftData(c, code, results) else c)
  }

  /** Digitisation succeeds exactly for the reference model, and only while
      that model is registered. */
  lemma DigitizeSucceedsOnlyForReference(c: Catalog, code: string)
    requires Valid(c)
    ensures DigitizePOH(c, code).results.success <==> code == ReferenceCode && ReferenceCode in c.models
  {
  }

  /** Digitisation never changes the catalog: on success it writes back the
      very parts it read out of it. */
  lemma DigitizeLeavesCatalogUnchanged(c: Catalog, code: string)
    requires Valid(c)
    ensures DigitizePOH(c, code).catalog == c
  {
    var d := DigitizePOH(c, code);
    if d.results.success {
      assert d.catalog.models == c.models;
    }
  }

  /** Against the built-in registry, digitising the Cessna 150N succeeds and
      reports its seeded charts, while any other code fails with the "no
      data" message and registers nothing. */
  lemma DigitizeBuiltIn(other: string)
    requires other != ReferenceCode
    ensures var d := DigitizePOH(Seed.Initial, ReferenceCode);
      d.results.success && d.results.performance == Some(Extracted(Data(Seed.C150NPerformance)))
    ensures var d := DigitizePOH(Seed.Initial, other);
      && !d.results.success
      && d.results.fuel == Some(Failed("No fuel data available for this model"))
      && d.catalog == Seed.Initial
  {
    Seed.InitialValid();
  }
}
