/** The built-in catalog entry: the Cessna 150N charts, fuel constants and
    weight-and-balance geometry the registry is seeded with. The calculator
    page carries an identical copy of the two charts as its default tables. */
module Seed {
  import opened Basics
  import opened Interpolation
  import opened Catalog
  import Formulas

  const Altitudes: seq<real> := [0.0, 1000.0, 2000.0, 3000.0, 4000.0, 5000.0, 6000.0, 7000.0, 8000.0]

  const Temperatures: seq<real> := [0.0, 10.0, 20.0, 30.0, 40.0]

  /** Takeoff chart at 1600 lb; cells beyond the certified envelope are unprinted. */
  const C150NTakeoff: Table := Table(
    Altitudes, Temperatures,
    [
        /* sea level */ [Some(Distances(655.0, 1245.0)), Some(Distances(710.0, 1335.0)), Some(Distances(765.0, 1435.0)), Some(Distances(820.0, 1540.0)), Some(Distances(880.0, 1650.0))],
        /* 1000 ft */ [Some(Distances(720.0, 1365.0)), Some(Distances(775.0, 1465.0)), Some(Distances(835.0, 1575.0)), Some(Distances(900.0, 1690.0)), Some(Distances(970.0, 1815.0))],
        /* 2000 ft */ [Some(Distances(790.0, 1500.0)), Some(Distances(855.0, 1615.0)), Some(Distances(920.0, 1735.0)), Some(Distances(990.0, 1865.0)), Some(Distances(1065.0, 2005.0))],
        /* 3000 ft */ [Some(Distances(870.0, 1650.0)), Some(Distances(935.0, 1780.0)), Some(Distances(1010.0, 1915.0)), Some(Distances(1090.0, 2065.0)), Some(Distances(1170.0, 2225.0))],
        /* 4000 ft */ [Some(Distances(955.0, 1820.0)), Some(Distances(1030.0, 1965.0)), Some(Distances(1115.0, 2125.0)), Some(Distances(1200.0, 2290.0)), Some(Distances(1290.0, 2475.0))],
        /* 5000 ft */ [Some(Distances(1050.0, 2015.0)), Some(Distances(1140.0, 2185.0)), Some(Distances(1230.0, 2360.0)), Some(Distances(1325.0, 2555.0)), Some(Distances(1430.0, 2770.0))],
        /* 6000 ft */ [Some(Distances(1160.0, 2245.0)), Some(Distances(1255.0, 2435.0)), Some(Distances(1360.0, 2640.0)), Some(Distances(1465.0, 2870.0)), Some(Distances(1580.0, 3120.0))],
        /* 7000 ft */ [Some(Distances(1285.0, 2510.0)), Some(Distances(1390.0, 2730.0)), Some(Distances(1505.0, 2970.0)), Some(Distances(1625.0, 3240.0)), None],
        /* 8000 ft */ [Some(Distances(1420.0, 2820.0)), Some(Distances(1540.0, 3080.0)), Some(Distances(1670.0, 3370.0)), None, None]
    ])

  /** Landing chart; every cell printed. */
  const C150NLanding: Table := Table(
    Altitudes, Temperatures,
    [
        /* sea level */ [Some(Distances(425.0, 1045.0)), Some(Distances(440.0, 1065.0)), Some(Distances(455.0, 1090.0)), Some(Distances(470.0, 1110.0)), Some(Distances(485.0, 1135.0))],
        /* 1000 ft */ [Some(Distances(440.0, 1065.0)), Some(Distances(455.0, 1090.0)), Some(Distances(470.0, 1110.0)), Some(Distances(485.0, 1135.0)), Some(Distances(505.0, 1165.0))],
        /* 2000 ft */ [Some(Distances(455.0, 1090.0)), Some(Distances(470.0, 1115.0)), Some(Distances(490.0, 1140.0)), Some(Distances(505.0, 1165.0)), Some(Distances(520.0, 1185.0))],
        /* 3000 ft */ [Some(Distances(470.0, 1115.0)), Some(Distances(490.0, 1140.0)), Some(Distances(505.0, 1165.0)), Some(Distances(525.0, 1195.0)), Some(Distances(540.0, 1215.0))],
        /* 4000 ft */ [Some(Distances(490.0, 1140.0)), Some(Distances(505.0, 1165.0)), Some(Distances(525.0, 1195.0)), Some(Distances(545.0, 1225.0)), Some(Distances(560.0, 1245.0))],
        /* 5000 ft */ [Some(Distances(510.0, 1170.0)), Some(Distances(525.0, 1195.0)), Some(Distances(545.0, 1225.0)), Some(Distances(565.0, 1255.0)), Some(Distances(585.0, 1285.0))],
        /* 6000 ft */ [Some(Distances(530.0, 1200.0)), Some(Distances(545.0, 1225.0)), Some(Distances(565.0, 1255.0)), Some(Distances(585.0, 1285.0)), Some(Distances(605.0, 1315.0))],
        /* 7000 ft */ [Some(Distances(550.0, 1230.0)), Some(Distances(570.0, 1260.0)), Some(Distances(590.0, 1290.0)), Some(Distances(610.0, 1320.0)), Some(Distances(630.0, 1350.0))],
        /* 8000 ft */ [Some(Distances(570.0, 1260.0)), Some(Distances(590.0, 1290.0)), Some(Distances(610.0, 1320.0)), Some(Distances(630.0, 1350.0)), Some(Distances(655.0, 1385.0))]
    ])

  const C150NPerformance: Performance := Performance(C150NTakeoff, C150NLanding)

  const C150NFuel: FuelData := FuelData(4.1, 0.8, 0.7, 2.05)

  const C150NWeightBalance: WeightBalance :=
    WeightBalance(Arms(33.07, 39.0, 64.0, 42.2, 64.0), Limits(1600.0, 0.0, 35.0, 47.0))

  const C150N: AircraftModel := AircraftModel(
    "Cessna 150N", "Single Engine Land", Data(C150NPerformance), Data(C150NFuel), Data(C150NWeightBalance))

  /** The registry as constructed, before anything is restored or added. */
  const Initial: Catalog := Catalog(["C150N"], map["C150N" := C150N])

  lemma InitialValid()
    ensures Valid(Initial)
  {
  }

  /** Seed chart shape: nine strictly increasing altitudes by five strictly
      increasing temperatures with a cell for each; the takeoff chart leaves
      exactly (7000 ft, 40 C), (8000 ft, 30 C) and (8000 ft, 40 C) unprinted,
      the landing chart prints every cell. */
  lemma SeedChartsShape()
    ensures WellFormed(C150NTakeoff) && WellFormed(C150NLanding)
    ensures |C150NTakeoff.alts| == |C150NLanding.alts| == 9
    ensures |C150NTakeoff.temps| == |C150NLanding.temps| == 5
    ensures forall i, j :: 0 <= i < 9 && 0 <= j < 5 ==>
      (C150NTakeoff.data[i][j].None? <==> (i == 7 && j == 4) || (i == 8 && j == 3) || (i == 8 && j == 4))
    ensures forall i, j :: 0 <= i < 9 && 0 <= j < 5 ==> C150NLanding.data[i][j].Some?
  {
  }

  /** The landing chart is fully printed, and every column rises with altitude. */
  lemma LandingChartRises()
    ensures WellFormed(C150NLanding) && RisesWithAltitude(C150NLanding) && FullyPrinted(C150NLanding)
  {
    SeedChartsShape();
    forall i, j, c: Channel | 1 <= i < 9 && 0 <= j < 5
      ensures ColumnStep(C150NLanding, i, j, c)
    {
      assert i == 1 || i == 2 || i == 3 || i == 4 || i == 5 || i == 6 || i == 7 || i == 8;
      assert j == 0 || j == 1 || j == 2 || j == 3 || j == 4;
    }
    RowByRowSuffices(C150NLanding);
    forall i, j | 0 <= i < 9 && 0 <= j < 5
      ensures C150NLanding.data[i][j].Some?
    {
      ColumnRises(C150NLanding, j, GroundRoll, i, 8);
    }
  }

  /** Every column of the takeoff chart rises with altitude up to its last
      printed cell; the blanks sit only at the top of the two hottest columns. */
  lemma TakeoffChartRises()
    ensures WellFormed(C150NTakeoff) && RisesWithAltitude(C150NTakeoff) && !FullyPrinted(C150NTakeoff)
  {
    SeedChartsShape();
    forall i, j, c: Channel | 1 <= i < 9 && 0 <= j < 5
      ensures ColumnStep(C150NTakeoff, i, j, c)
    {
      assert i == 1 || i == 2 || i == 3 || i == 4 || i == 5 || i == 6 || i == 7 || i == 8;
      assert j == 0 || j == 1 || j == 2 || j == 3 || j == 4;
    }
    RowByRowSuffices(C150NTakeoff);
    assert C150NTakeoff.data[8][4].None?;
  }

  /** Takeoff ground roll and 50 ft distance never decrease with pressure
      altitude wherever the chart gives a reading. */
  lemma TakeoffDistanceRisesWhereAvailable(p1: real, p2: real, temp: real, c: Channel)
    requires p1 <= p2
    requires Interpolate(Some(C150NTakeoff), p1, temp).Some?
    requires Interpolate(Some(C150NTakeoff), p2, temp).Some?
    ensures Pick(Interpolate(Some(C150NTakeoff), p1, temp).value, c)
         <= Pick(Interpolate(Some(C150NTakeoff), p2, temp).value, c)
  {
    TakeoffChartRises();
    MonotoneWhereAvailable(C150NTakeoff, p1, p2, temp, c);
  }

  /** Landing ground roll and 50 ft distance never decrease with pressure altitude. */
  lemma LandingDistanceRisesWithAltitude(p1: real, p2: real, temp: real, c: Channel)
    requires p1 <= p2
    ensures Interpolate(Some(C150NLanding), p1, temp).Some?
    ensures Interpolate(Some(C150NLanding), p2, temp).Some?
    ensures Pick(Interpolate(Some(C150NLanding), p1, temp).value, c)
         <= Pick(Interpolate(Some(C150NLanding), p2, temp).value, c)
  {
    LandingChartRises();
    MonotoneInAltitude(C150NLanding, p1, p2, temp, c);
  }

  /** High and hot: 7500 ft at 35 C brackets into a cell with an unprinted corner. */
  lemma TakeoffHighHotUnavailable()
    ensures Interpolate(Some(C150NTakeoff), 7500.0, 35.0) == None
  {
    SeedChartsShape();
    ReadingAtBracket(C150NTakeoff, 7500.0, 35.0);
    assert BracketIndex(Altitudes, 7500.0) == 8;
    assert BracketIndex(Temperatures, 35.0) == 4;
  }

  /** Below sea level and below 0 C the takeoff reading is the sea-level, 0 C cell. */
  lemma TakeoffClampsToFirstCell()
    ensures Interpolate(Some(C150NTakeoff), -500.0, -10.0) == Some(Distances(655.0, 1245.0))
  {
    SeedChartsShape();
    ClampedQueryReadsBoundary(C150NTakeoff, -500.0, -10.0);
    ClampedQueryReadsBoundary(C150NTakeoff, 0.0, -10.0);
    GridPointExact(C150NTakeoff, 0, 0);
  }

  /** Above the chart the landing reading saturates at the 8000 ft, 40 C cell. */
  lemma LandingClampsToLastCell()
    ensures Interpolate(Some(C150NLanding), 9000.0, 50.0) == Some(Distances(655.0, 1385.0))
  {
    SeedChartsShape();
    ClampedQueryReadsBoundary(C150NLanding, 9000.0, 50.0);
    ClampedQueryReadsBoundary(C150NLanding, 8000.0, 50.0);
    GridPointExact(C150NLanding, 8, 4);
  }

  /** The seeded registry lists the one built-in model and answers its lookups. */
  lemma InitialCatalogLookups(unknown: string)
    requires unknown != "C150N"
    ensures GetAvailableModels(Initial) == [ModelInfo("C150N", "Cessna 150N", "Single Engine Land")]
    ensures GetPerformanceData(Initial, "C150N") == Data(C150NPerformance)
    ensures GetFuelData(Initial, "C150N") == Data(C150NFuel)
    ensures GetWeightBalanceData(Initial, "C150N") == Data(C150NWeightBalance)
    ensures GetPerformanceData(Initial, unknown) == Absent
    ensures GetFuelData(Initial, unknown) == Absent
    ensures GetWeightBalanceData(Initial, unknown) == Absent
  {
  }

  /** The constants the calculator page hard-codes for its fuel and
      weight-and-balance sections are the built-in model's own. */
  lemma PageConstantsAgreeWithSeed()
    ensures C150NFuel.taxiStart == Formulas.TaxiStartGal
    ensures C150NFuel.climb == Formulas.ClimbGal
    ensures C150NFuel.reserve == Formulas.ReserveGal
    ensures C150NWeightBalance.arms.front == Formulas.FrontArm
    ensures C150NWeightBalance.arms.back == Formulas.BackArm
    ensures C150NWeightBalance.arms.baggage == Formulas.BaggageArm
    ensures C150NWeightBalance.arms.fuel == Formulas.FuelArm
  {
  }
}
