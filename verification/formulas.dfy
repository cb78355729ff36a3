/** The closed-form calculations of the planning page: standard atmosphere,
    the wind angle to the runway or course, fuel required, and weight and
    balance. Quantities are exact reals; display rounding is not modelled. */
module Formulas {
  import opened Basics

  // ---------------------------------------------------------------------------
  // Reading an entry field

  /** `parseFloat(text) || fallback` as written: an entry that does not parse
      (`None`, that is NaN) takes the fallback, and so does an entry of exactly
      zero, because zero is falsy too. */
  function OrFallbackAsWritten(entry: Option<real>, fallback: real): (r: real)
    ensures entry.Some? && entry.value != 0.0 ==> r == entry.value
    ensures entry.None? || entry.value == 0.0 ==> r == fallback
  {
    if entry.None? || entry.value == 0.0 then fallback else entry.value
  }

  /** The evidently intended reading: only an entry that does not parse takes
      the fallback. */
  function OrFallback(entry: Option<real>, fallback: real): (r: real)
    ensures entry.Some? ==> r == entry.value
    ensures entry.None? ==> r == fallback
  {
    if entry.None? then fallback else entry.value
  }

  /** The two readings differ exactly on an entered zero whose fallback is not zero. */
  lemma FallbackReadingsDiffer(entry: Option<real>, fallback: real)
    ensures OrFallbackAsWritten(entry, fallback) != OrFallback(entry, fallback)
       <==> entry == Some(0.0) && fallback != 0.0
    ensures entry.Some? ==> OrFallback(entry, fallback) == entry.value
  {
  }

  // ---------------------------------------------------------------------------
  // Atmosphere

  /** Standard altimeter setting, inches of mercury. */
  const StandardSetting: real := 29.92

  datatype Atmosphere = Atmosphere(stdTemp: real, pressureAlt: real, densityAlt: real)

  /** `calculateAtmosphere`: standard temperature at the field altitude (deg C),
      pressure altitude (ft) and density altitude (ft). */
  function ComputeAtmosphere(alt: real, setting: real, oat: real): (r: Atmosphere)
    ensures r.stdTemp == 15.0 - 1.98 * (alt / 1000.0)
    ensures r.pressureAlt - alt == 1000.0 * (StandardSetting - setting)
    ensures alt == 0.0 ==> r.stdTemp == 15.0
    ensures setting == StandardSetting ==> r.pressureAlt == alt
    ensures setting < StandardSetting <==> r.pressureAlt > alt
    ensures oat == r.stdTemp ==> r.densityAlt == r.pressureAlt
    ensures oat > r.stdTemp <==> r.densityAlt > r.pressureAlt
    ensures r.densityAlt - r.pressureAlt == 120.0 * (oat - r.stdTemp)
  {
    var stdT := 15.0 - 1.98 * (alt / 1000.0);
    var pAlt := (StandardSetting - setting) * 1000.0 + alt;
    var dAlt := pAlt + 120.0 * (oat - stdT);
    Atmosphere(stdT, pAlt, dAlt)
  }

  /** The standard temperature falls 1.98 deg C per 1000 ft, and on a standard
      day density altitude is the field altitude. */
  lemma StandardDay(alt: real)
    ensures ComputeAtmosphere(alt + 1000.0, StandardSetting, 0.0).stdTemp
         == ComputeAtmosphere(alt, StandardSetting, 0.0).stdTemp - 1.98
    ensures var std := ComputeAtmosphere(alt, StandardSetting, 0.0).stdTemp;
      ComputeAtmosphere(alt, StandardSetting, std).densityAlt == alt
  {
  }

  /** The atmosphere from the three entry fields as written: altitude falls
      back to 0, the altimeter setting to 29.92 and the temperature to 15. */
  function AtmosphereFromEntriesAsWritten(alt: Option<real>, setting: Option<real>, oat: Option<real>): (r: Atmosphere)
    ensures oat.None? || oat == Some(0.0) ==> r.densityAlt - r.pressureAlt == 120.0 * (15.0 - r.stdTemp)
    ensures alt.Some? && setting.Some? && oat.Some? && setting.value != 0.0 && oat.value != 0.0 ==>
      r == ComputeAtmosphere(alt.value, setting.value, oat.value)
  {
    ComputeAtmosphere(OrFallbackAsWritten(alt, 0.0), OrFallbackAsWritten(setting, StandardSetting),
                      OrFallbackAsWritten(oat, 15.0))
  }

  /** The atmosphere from the entry fields with an entered 0 deg C kept as 0. */
  function AtmosphereFromEntries(alt: Option<real>, setting: Option<real>, oat: Option<real>): (r: Atmosphere)
    ensures oat.Some? && alt.Some? && setting.Some? ==>
      r == ComputeAtmosphere(alt.value, setting.value, oat.value)
    ensures oat.None? && alt.None? && setting.None? ==>
      r == ComputeAtmosphere(0.0, StandardSetting, 15.0)
  {
    ComputeAtmosphere(OrFallback(alt, 0.0), OrFallback(setting, StandardSetting), OrFallback(oat, 15.0))
  }

  /** Each field falls back on its own, whatever the other two hold: a blank
      altitude reads as 0 ft, a blank setting as 29.92 inHg and a blank OAT as
      15 deg C. With the all-given case this fixes every reading. */
  lemma BlankEntryReadsAsFallback(alt: Option<real>, setting: Option<real>, oat: Option<real>)
    ensures AtmosphereFromEntries(None, setting, oat) == AtmosphereFromEntries(Some(0.0), setting, oat)
    ensures AtmosphereFromEntries(alt, None, oat) == AtmosphereFromEntries(alt, Some(StandardSetting), oat)
    ensures AtmosphereFromEntries(alt, setting, None) == AtmosphereFromEntries(alt, setting, Some(15.0))
  {
  }

  /** As written, each field falls back on its own as well, and an entered
      zero reads exactly like a blank: altitude 0 ft, setting 29.92 inHg, OAT
      15 deg C. With the all-given case this fixes every reading. */
  lemma BlankOrZeroReadsAsFallbackAsWritten(alt: Option<real>, setting: Option<real>, oat: Option<real>)
    ensures AtmosphereFromEntriesAsWritten(None, setting, oat)
         == AtmosphereFromEntriesAsWritten(Some(0.0), setting, oat)
    ensures AtmosphereFromEntriesAsWritten(alt, None, oat)
         == AtmosphereFromEntriesAsWritten(alt, Some(0.0), oat)
    ensures AtmosphereFromEntriesAsWritten(alt, None, oat)
         == AtmosphereFromEntriesAsWritten(alt, Some(StandardSetting), oat)
    ensures AtmosphereFromEntriesAsWritten(alt, setting, None)
         == AtmosphereFromEntriesAsWritten(alt, setting, Some(0.0))
    ensures AtmosphereFromEntriesAsWritten(alt, setting, None)
         == AtmosphereFromEntriesAsWritten(alt, setting, Some(15.0))
  {
  }

  /** At a sea-level field with the standard setting, an entered 0 deg C is read
      as 15 deg C, so density altitude shows 0 ft instead of -1800 ft. */
  lemma ZeroOatReadAsFifteen()
    ensures AtmosphereFromEntriesAsWritten(Some(0.0), Some(StandardSetting), Some(0.0)).densityAlt == 0.0
    ensures AtmosphereFromEntries(Some(0.0), Some(StandardSetting), Some(0.0)).densityAlt == -1800.0
  {
  }

  /** Altitude and setting read the same either way: their fallbacks make a
      zero entry harmless (a zero setting reads as standard, which no real
      altimeter shows); only the temperature is affected. */
  lemma OnlyTemperatureReadingDiffers(alt: Option<real>, setting: Option<real>, oat: Option<real>)
    requires setting != Some(0.0)
    requires oat != Some(0.0)
    ensures AtmosphereFromEntriesAsWritten(alt, setting, oat) == AtmosphereFromEntries(alt, setting, oat)
  {
  }

  // ---------------------------------------------------------------------------
  // Wind angle

  /** The three wind panels; the cruise panel compares the wind with the true course. */
  datatype Leg = Departure | Arrival | Cruise

  function Abs(x: real): real { if x < 0.0 then -x else x }

  /** Runway number times ten, or the true course as entered on the cruise panel. */
  function ReferenceHeading(leg: Leg, entry: real): (h: real)
    ensures leg == Cruise ==> h == entry
    ensures leg != Cruise ==> h / 10.0 == entry
  {
    if leg == Cruise then entry else entry * 10.0
  }

  /** The angle between wind and heading, folded into [0, 180] for directions
      within [0, 360]: one of the two ways round, and the shorter one. */
  function AngleDifference(wdir: real, heading: real): (d: real)
    ensures d == Abs(wdir - heading) || d == 360.0 - Abs(wdir - heading)
    ensures Abs(wdir - heading) <= 180.0 ==> d == Abs(wdir - heading)
    ensures Abs(wdir - heading) > 180.0 ==> d == 360.0 - Abs(wdir - heading)
    ensures 0.0 <= wdir <= 360.0 && 0.0 <= heading <= 360.0 ==> 0.0 <= d <= 180.0
    ensures 0.0 <= wdir <= 360.0 && 0.0 <= heading <= 360.0 ==>
      d == Min(Abs(wdir - heading), 360.0 - Abs(wdir - heading))
  {
    var diff := Abs(wdir - heading);
    if diff > 180.0 then 360.0 - diff else diff
  }

  lemma AngleDifferenceSymmetric(a: real, b: real)
    ensures AngleDifference(a, b) == AngleDifference(b, a)
  {
  }

  /** `calculateWind` up to the trigonometry: no angle (the "---" display) when
      any of the three entries does not parse. */
  function WindAngle(leg: Leg, wdir: Option<real>, wspd: Option<real>, entry: Option<real>): (r: Option<real>)
    ensures r.None? <==> wdir.None? || wspd.None? || entry.None?
    ensures r.Some? ==> r.value == AngleDifference(wdir.value, ReferenceHeading(leg, entry.value))
    ensures r.Some? && 0.0 <= wdir.value <= 360.0 && 0.0 <= ReferenceHeading(leg, entry.value) <= 360.0 ==>
      0.0 <= r.value <= 180.0
  {
    if wdir.None? || wspd.None? || entry.None? then None
    else Some(AngleDifference(wdir.value, ReferenceHeading(leg, entry.value)))
  }

  /** Wind 270 on runway 27 is straight down the runway, wind 180 on runway 27
      is a direct crosswind, and the fold takes the short way round north. */
  lemma WindScenarios()
    ensures WindAngle(Departure, Some(270.0), Some(20.0), Some(27.0)) == Some(0.0)
    ensures WindAngle(Departure, Some(180.0), Some(20.0), Some(27.0)) == Some(90.0)
    ensures WindAngle(Cruise, Some(350.0), Some(15.0), Some(10.0)) == Some(20.0)
    ensures WindAngle(Arrival, None, Some(15.0), Some(9.0)) == None
  {
  }

  // ---------------------------------------------------------------------------
  // Fuel

  /** The page's fixed fuel allowances (gal) and cruise time (h). */
  const TaxiStartGal: real := 0.8
  const ClimbGal: real := 0.7
  const ReserveGal: real := 2.05
  const CruiseHours: real := 0.0

  datatype FuelPlan = FuelPlan(cruise: real, required: real, remaining: real)

  /** `calculateFuel`: with the cruise time fixed at zero hours the burn rate
      has no effect, 3.55 gal are required, and the rest remains. */
  function PlanFuel(gph: real, onBoard: real): (r: FuelPlan)
    ensures r.cruise == 0.0
    ensures r.required == 3.55
    ensures r.required + r.remaining == onBoard
    ensures r.remaining >= 0.0 <==> onBoard >= TaxiStartGal + ClimbGal + ReserveGal
  {
    var cruise := CruiseHours * gph;
    var required := TaxiStartGal + ClimbGal + cruise + ReserveGal;
    FuelPlan(cruise, required, onBoard - required)
  }

  // ---------------------------------------------------------------------------
  // Weight and balance

  /** One loading station: weight (lb) at an arm (in). */
  datatype Station = Station(weight: real, arm: real)

  function TotalWeight(s: seq<Station>): real {
    if |s| == 0 then 0.0 else TotalWeight(s[..|s| - 1]) + s[|s| - 1].weight
  }

  function TotalMoment(s: seq<Station>): real {
    if |s| == 0 then 0.0 else TotalMoment(s[..|s| - 1]) + s[|s| - 1].weight * s[|s| - 1].arm
  }

  /** The page's fixed arms (in) and the fuel density (lb per gal). */
  const FrontArm: real := 39.0
  const BackArm: real := 64.0
  const BaggageArm: real := 64.0
  const FuelArm: real := 42.2
  const FuelPoundsPerGallon: real := 6.0

  /** The entries of the weight-and-balance panel. */
  datatype Loading = Loading(
    emptyWeight: real, frontWeight: real, backWeight: real, baggageWeight: real,
    fuelGallons: real, emptyArm: real)

  /** The five stations in the order the page totals them. */
  function Stations(l: Loading): seq<Station> {
    [Station(l.emptyWeight, l.emptyArm), Station(l.frontWeight, FrontArm), Station(l.backWeight, BackArm),
     Station(l.baggageWeight, BaggageArm), Station(l.fuelGallons * FuelPoundsPerGallon, FuelArm)]
  }

  datatype Balance = Balance(fuelWeight: real, totalWeight: real, totalMoment: real, cg: real)

  /** `calculateWB`: fuel at 6 lb per gallon, weight and moment summed over the
      five stations, and the CG as their quotient (0 when nothing is loaded). */
  function WeightAndBalance(l: Loading): (r: Balance)
    ensures r.fuelWeight == FuelPoundsPerGallon * l.fuelGallons
    ensures r.totalWeight == TotalWeight(Stations(l))
    ensures r.totalMoment == TotalMoment(Stations(l))
    ensures r.totalWeight > 0.0 ==> r.cg * r.totalWeight == r.totalMoment
    ensures r.totalWeight <= 0.0 ==> r.cg == 0.0
  {
    var fuelW := l.fuelGallons * FuelPoundsPerGallon;
    var emptyM := l.emptyWeight * l.emptyArm;
    var frontM := l.frontWeight * FrontArm;
    var backM := l.backWeight * BackArm;
    var bagM := l.baggageWeight * BaggageArm;
    var fuelM := fuelW * FuelArm;
    var totalW := l.emptyWeight + l.frontWeight + l.backWeight + l.baggageWeight + fuelW;
    var totalM := emptyM + frontM + backM + bagM + fuelM;
    FiveStationTotals(Stations(l));
    Balance(fuelW, totalW, totalM, if totalW > 0.0 then totalM / totalW else 0.0)
  }

  lemma FiveStationTotals(s: seq<Station>)
    requires |s| == 5
    ensures TotalWeight(s) == s[0].weight + s[1].weight + s[2].weight + s[3].weight + s[4].weight
    ensures TotalMoment(s) == s[0].weight * s[0].arm + s[1].weight * s[1].arm + s[2].weight * s[2].arm
                              + s[3].weight * s[3].arm + s[4].weight * s[4].arm
  {
    assert TotalWeight(s[..1]) == s[0].weight && TotalMoment(s[..1]) == s[0].weight * s[0].arm by {
      assert s[..1][..0] == [];
    }
    assert s[..2][..1] == s[..1];
    assert TotalWeight(s[..2]) == s[0].weight + s[1].weight;
    assert TotalMoment(s[..2]) == s[0].weight * s[0].arm + s[1].weight * s[1].arm;
    assert s[..3][..2] == s[..2];
    assert TotalWeight(s[..3]) == s[0].weight + s[1].weight + s[2].weight;
    assert TotalMoment(s[..3]) == s[0].weight * s[0].arm + s[1].weight * s[1].arm + s[2].weight * s[2].arm;
    assert s[..4][..3] == s[..3];
    assert TotalWeight(s[..4]) == s[0].weight + s[1].weight + s[2].weight + s[3].weight;
    assert TotalMoment(s[..4]) == s[0].weight * s[0].arm + s[1].weight * s[1].arm + s[2].weight * s[2].arm
                                  + s[3].weight * s[3].arm;
    assert s[..5] == s;
  }

  /** With no negative weights, the total moment lies between the total weight
      times the smallest arm and times the largest arm. */
  lemma {:induction false} MomentBetweenArms(s: seq<Station>, lo: real, hi: real)
    requires forall k :: 0 <= k < |s| ==> s[k].weight >= 0.0 && lo <= s[k].arm <= hi
    ensures lo * TotalWeight(s) <= TotalMoment(s) <= hi * TotalWeight(s)
  {
    if |s| > 0 {
      var last := s[|s| - 1];
      MomentBetweenArms(s[..|s| - 1], lo, hi);
      ProductNonNegative(last.weight, last.arm - lo);
      ProductNonNegative(last.weight, hi - last.arm);
    }
  }

  /** The CG is a weighted mean of the arms: with nothing negative loaded and
      something loaded, it lies between the foremost and the aftmost arm. */
  lemma CgBetweenArms(l: Loading)
    requires l.emptyWeight >= 0.0 && l.frontWeight >= 0.0 && l.backWeight >= 0.0
    requires l.baggageWeight >= 0.0 && l.fuelGallons >= 0.0
    ensures var r := WeightAndBalance(l);
      r.totalWeight > 0.0 ==> Min(l.emptyArm, FrontArm) <= r.cg <= Max(l.emptyArm, BackArm)
  {
    var r := WeightAndBalance(l);
    var lo := Min(l.emptyArm, FrontArm);
    var hi := Max(l.emptyArm, BackArm);
    var s := Stations(l);
    ProductNonNegative(l.fuelGallons, FuelPoundsPerGallon);
    forall k | 0 <= k < |s|
      ensures s[k].weight >= 0.0 && lo <= s[k].arm <= hi
    {
    }
    MomentBetweenArms(s, lo, hi);
    if r.totalWeight > 0.0 {
      QuotientBetween(r.totalMoment, r.totalWeight, lo, hi);
    }
  }

  lemma QuotientBetween(m: real, w: real, lo: real, hi: real)
    requires w > 0.0 && lo * w <= m <= hi * w
    ensures lo <= m / w <= hi
  {
    assert (m / w) * w == m;
  }

  /** 1500 lb empty at 33.07 in with 30 gal of fuel: 1680 lb, a moment of
      57201 lb-in, and the CG at 57201 / 1680 (about 34.05 in). */
  lemma EmptyPlusFuelScenario()
    ensures var r := WeightAndBalance(Loading(1500.0, 0.0, 0.0, 0.0, 30.0, 33.07));
      && r.fuelWeight == 180.0
      && r.totalWeight == 1680.0
      && r.totalMoment == 57201.0
      && r.cg == 57201.0 / 1680.0
  {
  }
}
