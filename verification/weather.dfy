/** The pure half of the weather service: turning a METAR or TAF record, as
    the aviation weather API returns it, into the calculator's weather report,
    and choosing the runway most into the wind. Fetching is not modelled; the
    records arrive as values whose absent members (`undefined` or `null`) are
    `None`. */
module Weather {
  import opened Basics
  import opened Text

  /** The `wdir` member: absent, the string `VRB`, or a direction in degrees. */
  datatype WindField = Missing | Variable | Degrees(deg: real)

  /** Visibility is passed through as reported: a number of statute miles or
      a string such as `10+`. */
  datatype Visibility = Miles(miles: real) | Reported(text: string)

  datatype Cloud = Cloud(cover: string, base: Option<int>)

  /** The METAR members the parser reads. */
  datatype MetarData = MetarData(
    rawOb: Option<string>,
    temp: Option<real>,
    dewp: Option<real>,
    wdir: WindField,
    wspd: Option<real>,
    altim: Option<real>,
    visib: Option<Visibility>,
    fltCat: Option<string>,
    fltcat: Option<string>,
    elev: Option<real>)

  datatype Metar = Metar(
    raw: string,
    temp: Option<real>,
    dewpoint: Option<real>,
    windDir: real,
    windSpd: real,
    altimeterInHg: Option<real>,
    visibility: Option<Visibility>,
    flightRules: string,
    elevation: Option<real>)

  /** Inches of mercury per hectopascal, as the service rounds it. */
  const InHgPerHpa: real := 0.02953

  /** Altimeter values above this are taken to be hectopascals. */
  const HpaThreshold: real := 800.0

  /** A string member read with `||`: absent and empty are both falsy. */
  predicate Truthy(s: Option<string>) {
    s.Some? && |s.value| > 0
  }

  /** `a || b` on string members. */
  function OrElse(a: Option<string>, b: string): (r: string)
    ensures Truthy(a) ==> r == a.value
    ensures !Truthy(a) ==> r == b
  {
    if Truthy(a) then a.value else b
  }

  /** Wind direction as reported: variable and absent both read as 0. */
  function WindDirection(w: WindField): (d: real)
    ensures w.Degrees? ==> d == w.deg
    ensures !w.Degrees? ==> d == 0.0
  {
    match w
    case Degrees(deg) => deg
    case _ => 0.0
  }

  /** Wind speed as reported: absent reads as 0 (calm). */
  function WindSpeed(s: Option<real>): (v: real)
    ensures s.Some? ==> v == s.value
    ensures s.None? ==> v == 0.0
  {
    match s
    case Some(v) => v
    case None => 0.0
  }

  /** The altimeter setting in inches of mercury. A value above 800 can only
      be hectopascals and is converted; anything else is taken to be inches
      already; an absent setting stays absent. */
  function AltimeterInHg(altim: Option<real>): (r: Option<real>)
    ensures altim.None? <==> r.None?
    ensures altim.Some? && altim.value > HpaThreshold ==> r == Some(altim.value * InHgPerHpa)
    ensures altim.Some? && altim.value <= HpaThreshold ==> r == altim
  {
    match altim
    case None => None
    case Some(a) => Some(if a > HpaThreshold then a * InHgPerHpa else a)
  }

  /** The standard atmosphere's 1013.25 hPa converts to within 0.002 inHg of
      the standard 29.92 inHg, and a converted pressure keeps its order. */
  lemma HectopascalConversion(p1: real, p2: real)
    requires HpaThreshold < p1 <= p2
    ensures var r1 := AltimeterInHg(Some(p1)); var r2 := AltimeterInHg(Some(p2));
      r1.Some? && r2.Some? && r1.value <= r2.value
    ensures var std := AltimeterInHg(Some(1013.25)).value;
      29.92 - 0.002 < std < 29.92 + 0.002
  {
  }

  /** `parseMetar`. */
  function ParseMetar(data: Option<MetarData>): (r: Option<Metar>)
    ensures data.None? <==> r.None?
    ensures r.Some? ==>
      var d := data.value;
      && r.value.raw == (if d.rawOb.Some? then d.rawOb.value else "")
      && r.value.temp == d.temp
      && r.value.dewpoint == d.dewp
      && r.value.windDir == WindDirection(d.wdir)
      && r.value.windSpd == WindSpeed(d.wspd)
      && r.value.altimeterInHg == AltimeterInHg(d.altim)
      && r.value.visibility == d.visib
      && r.value.flightRules == OrElse(d.fltCat, OrElse(d.fltcat, "UNK"))
      && r.value.elevation == d.elev
  {
    match data
    case None => None
    case Some(d) =>
      Some(Metar(
        OrElse(d.rawOb, ""),
        d.temp,
        d.dewp,
        WindDirection(d.wdir),
        WindSpeed(d.wspd),
        AltimeterInHg(d.altim),
        d.visib,
        OrElse(d.fltCat, OrElse(d.fltcat, "UNK")),
        d.elev))
  }

  /** The report cannot tell a variable wind from a wind from due north, nor a
      missing speed from a calm: all read as 0. */
  lemma VariableWindReadsAsNorth(d: MetarData)
    ensures var vrb := ParseMetar(Some(d.(wdir := Variable)));
      && vrb == ParseMetar(Some(d.(wdir := Missing)))
      && vrb == ParseMetar(Some(d.(wdir := Degrees(0.0))))
    ensures ParseMetar(Some(d.(wspd := None))) == ParseMetar(Some(d.(wspd := Some(0.0))))
  {
  }

  /** The flight category falls back from `fltCat` to `fltcat` to `UNK`. */
  lemma FlightRulesFallback(d: MetarData)
    ensures var rules := ParseMetar(Some(d)).value.flightRules;
      && (Truthy(d.fltCat) ==> rules == d.fltCat.value)
      && (!Truthy(d.fltCat) && Truthy(d.fltcat) ==> rules == d.fltcat.value)
      && (!Truthy(d.fltCat) && !Truthy(d.fltcat) ==> rules == "UNK")
      && |rules| > 0
  {
  }

  // ---------------------------------------------------------------------------
  // TAF

  /** One forecast period; the bounds are in seconds since the epoch. */
  datatype Forecast = Forecast(
    timeFrom: int,
    timeTo: int,
    wdir: WindField,
    wspd: Option<real>,
    visib: Option<Visibility>,
    clouds: Option<seq<Cloud>>)

  datatype TafData = TafData(rawTAF: Option<string>, fcsts: Option<seq<Forecast>>)

  datatype Taf = Taf(
    raw: string,
    windDir: real,
    windSpd: real,
    visibility: Option<Visibility>,
    clouds: seq<Cloud>)

  /** The period covers the instant `t`, in milliseconds: from its start,
      inclusive, to its end, exclusive. */
  predicate Covers(f: Forecast, t: int) {
    f.timeFrom * 1000 <= t < f.timeTo * 1000
  }

  /** The period `parseTaf` reports on: the first that covers `t`, else the
      first of all; -1 when there is none. */
  function SelectForecast(fcsts: seq<Forecast>, t: int): (k: int)
    ensures |fcsts| == 0 <==> k == -1
    ensures -1 <= k < |fcsts|
    ensures (exists i :: 0 <= i < |fcsts| && Covers(fcsts[i], t)) ==>
      0 <= k && Covers(fcsts[k], t) && forall i :: 0 <= i < k ==> !Covers(fcsts[i], t)
    ensures (forall i :: 0 <= i < |fcsts| ==> !Covers(fcsts[i], t)) && |fcsts| > 0 ==> k == 0
  {
    var hit := FindIndex(fcsts, (f: Forecast) => Covers(f, t));
    if hit >= 0 then hit
    else if |fcsts| > 0 then 0
    else -1
  }

  /** `parseTaf` at the instant `t` (milliseconds since the epoch). */
  function ParseTaf(data: Option<TafData>, t: int): (r: Option<Taf>)
    ensures r.None? <==> data.None? || data.value.fcsts.None? || |data.value.fcsts.value| == 0
    ensures r.Some? ==>
      var fs := data.value.fcsts.value;
      var k := SelectForecast(fs, t);
      && 0 <= k < |fs|
      && r.value.raw == OrElse(data.value.rawTAF, "")
      && r.value.windDir == WindDirection(fs[k].wdir)
      && r.value.windSpd == WindSpeed(fs[k].wspd)
      && r.value.visibility == fs[k].visib
      && r.value.clouds == (if fs[k].clouds.Some? then fs[k].clouds.value else [])
  {
    match data
    case None => None
    case Some(d) =>
      match d.fcsts
      case None => None
      case Some(fs) =>
        var k := SelectForecast(fs, t);
        if k < 0 then None
        else
          var f := fs[k];
          Some(Taf(
            OrElse(d.rawTAF, ""),
            WindDirection(f.wdir),
            WindSpeed(f.wspd),
            f.visib,
            if f.clouds.Some? then f.clouds.value else []))
  }

  /** When exactly one period covers `t`, that period is reported, wherever
      it sits in the list. */
  lemma CoveringPeriodReported(d: TafData, t: int, j: nat)
    requires d.fcsts.Some? && j < |d.fcsts.value|
    requires Covers(d.fcsts.value[j], t)
    requires forall i :: 0 <= i < |d.fcsts.value| && i != j ==> !Covers(d.fcsts.value[i], t)
    ensures var r := ParseTaf(Some(d), t);
      var f := d.fcsts.value[j];
      r.Some? && r.value.windDir == WindDirection(f.wdir) && r.value.windSpd == WindSpeed(f.wspd)
  {
    var k := SelectForecast(d.fcsts.value, t);
    assert k == j;
  }

  // ---------------------------------------------------------------------------
  // Runway choice

  /** A runway as the station data lists it. */
  datatype Runway = Runway(id: string, length: Option<int>)

  /** A runway list entry: a bare designator string or a runway record. */
  datatype RunwayEntry = Designator(name: string) | Record(runway: Runway)

  /** Bare designators become records with no length. */
  function AsRunway(e: RunwayEntry): (r: Runway)
    ensures e.Designator? ==> r == Runway(e.name, None)
    ensures e.Record? ==> r == e.runway
  {
    match e
    case Designator(name) => Runway(name, None)
    case Record(rwy) => rwy
  }

  function AsRunways(entries: seq<RunwayEntry>): (rs: seq<Runway>)
    ensures |rs| == |entries|
    ensures forall i :: 0 <= i < |entries| ==> rs[i] == AsRunway(entries[i])
  {
    seq(|entries|, i requires 0 <= i < |entries| => AsRunway(entries[i]))
  }

  predicate IsSideLetter(c: char) {
    c == 'L' || c == 'R' || c == 'C'
  }

  /** `id.replace(/[LRC]/g, '')`. */
  function StripSides(id: string): (r: string)
    ensures |r| <= |id|
    ensures forall k :: 0 <= k < |r| ==> !IsSideLetter(r[k])
    ensures |id| == 1 ==> r == if IsSideLetter(id[0]) then "" else id
  {
    if |id| == 0 then ""
    else if IsSideLetter(id[0]) then StripSides(id[1..])
    else [id[0]] + StripSides(id[1..])
  }

  /** Stripping works character by character: the letters of a concatenation
      are stripped as those of its two parts, so every other character is kept,
      in order. */
  lemma {:induction false} StripSidesDistributes(a: string, b: string)
    ensures StripSides(a + b) == StripSides(a) + StripSides(b)
  {
    if |a| > 0 {
      assert (a + b)[0] == a[0];
      assert (a + b)[1..] == a[1..] + b;
      StripSidesDistributes(a[1..], b);
    } else {
      assert a + b == b;
    }
  }

  /** An id without side letters is kept whole. */
  lemma {:induction false} StripSidesKeepsPlainId(id: string)
    requires forall k :: 0 <= k < |id| ==> !IsSideLetter(id[k])
    ensures StripSides(id) == id
  {
    if |id| > 0 {
      StripSidesKeepsPlainId(id[1..]);
      assert id == [id[0]] + id[1..];
    }
  }

  /** The magnetic heading a designator names, in degrees: its number times
      ten. `None` when no number can be read (the heading is `NaN`). */
  function Heading(r: Runway): (h: Option<int>)
    ensures h.None? <==> ParseInt(StripSides(r.id)).None?
    ensures h.Some? ==> h.value == 10 * ParseInt(StripSides(r.id)).value
  {
    var n := ParseInt(StripSides(r.id));
    if n.None? then None else Some(10 * n.value)
  }

  function Headings(rs: seq<Runway>): (hs: seq<Option<int>>)
    ensures |hs| == |rs|
    ensures forall i :: 0 <= i < |rs| ==> hs[i] == Heading(rs[i])
  {
    seq(|rs|, i requires 0 <= i < |rs| => Heading(rs[i]))
  }

  /** Among the candidate headings `hs` (`None` for `NaN`), `k` is the first
      with the greatest score: it has a heading, scores at least as well as
      every candidate with a heading, and strictly better than every earlier
      one. */
  predicate FirstBestOf(hs: seq<Option<int>>, k: int, windDir: real, score: (real, int) -> real) {
    && 0 <= k < |hs|
    && hs[k].Some?
    && (forall i :: 0 <= i < |hs| && hs[i].Some? ==> score(windDir, hs[i].value) <= score(windDir, hs[k].value))
    && (forall i :: 0 <= i < k && hs[i].Some? ==> score(windDir, hs[i].value) < score(windDir, hs[k].value))
  }

  /** The runway `determineRunway` settles on. */
  predicate FirstBest(rs: seq<Runway>, k: int, windDir: real, score: (real, int) -> real) {
    FirstBestOf(Headings(rs), k, windDir, score)
  }

  /** The selection loop of `determineRunway`, over the headings: the best
      score starts below every number, and only a strictly greater score
      replaces the best so far. -1 when no heading is a number. */
  method FirstArgMax(hs: seq<Option<int>>, windDir: real, score: (real, int) -> real) returns (k: int)
    ensures -1 <= k < |hs|
    ensures k == -1 <==> forall i :: 0 <= i < |hs| ==> hs[i].None?
    ensures k >= 0 ==> FirstBestOf(hs, k, windDir, score)
  {
    k := -1;
    var maxScore := 0.0;
    for i := 0 to |hs|
      invariant -1 <= k < i
      invariant k == -1 <==> forall j :: 0 <= j < i ==> hs[j].None?
      invariant k >= 0 ==>
        && hs[k].Some?
        && maxScore == score(windDir, hs[k].value)
        && (forall j :: 0 <= j < i && hs[j].Some? ==> score(windDir, hs[j].value) <= maxScore)
        && (forall j :: 0 <= j < k && hs[j].Some? ==> score(windDir, hs[j].value) < maxScore)
    {
      if hs[i].Some? {
        var s := score(windDir, hs[i].value);
        if k == -1 || s > maxScore {
          k := i;
          maxScore := s;
        }
      }
    }
  }

  /** `determineRunway`: with a wind direction and a non-empty runway list,
      the first runway whose headwind score is greatest; ties keep the earlier
      runway. `score(windDir, heading)` stands for the cosine of the angle
      between them. Runways whose heading is `NaN` never win, so the answer is
      absent when no designator carries a number. */
  method DetermineRunway(windDir: Option<real>, runways: Option<seq<RunwayEntry>>, score: (real, int) -> real)
    returns (best: Option<Runway>)
    ensures windDir.None? || runways.None? || |runways.value| == 0 ==> best.None?
    ensures windDir.Some? && runways.Some? ==>
      var rs := AsRunways(runways.value);
      && (best.None? <==> forall i :: 0 <= i < |rs| ==> Heading(rs[i]).None?)
      && (best.Some? ==> exists k :: FirstBest(rs, k, windDir.value, score) && best.value == rs[k])
  {
    if windDir.None? || runways.None? || |runways.value| == 0 {
      return None;
    }
    var rs := AsRunways(runways.value);
    var hs := Headings(rs);
    var k := FirstArgMax(hs, windDir.value, score);
    if k == -1 {
      return None;
    }
    return Some(rs[k]);
  }

  /** There is only one first best runway. */
  lemma FirstBestUnique(rs: seq<Runway>, k1: int, k2: int, windDir: real, score: (real, int) -> real)
    requires FirstBest(rs, k1, windDir, score) && FirstBest(rs, k2, windDir, score)
    ensures k1 == k2
  {
  }

  /** Two runways with the same heading score the same, so the later one is
      never chosen over the earlier one. */
  lemma TiesKeepEarlier(rs: seq<Runway>, i: int, j: int, windDir: real, score: (real, int) -> real)
    requires 0 <= i < j < |rs| && Heading(rs[i]).Some? && Heading(rs[i]) == Heading(rs[j])
    ensures !FirstBest(rs, j, windDir, score)
  {
  }

  /** A designator made of a number followed by side letters names ten times
      that number. */
  lemma {:induction false} NumberedDesignatorHeading(n: nat, sides: string)
    requires forall k :: 0 <= k < |sides| ==> IsSideLetter(sides[k])
    ensures Heading(Runway(Decimal(n) + sides, None)) == Some(10 * n)
  {
    StripDigitsThenSides(Decimal(n), sides);
    ParseIntRoundTrip(n);
  }

  lemma {:induction false} StripDigitsThenSides(digits: string, sides: string)
    requires forall k :: 0 <= k < |digits| ==> '0' <= digits[k] <= '9'
    requires forall k :: 0 <= k < |sides| ==> IsSideLetter(sides[k])
    ensures StripSides(digits + sides) == digits
  {
    if |digits| == 0 {
      assert digits + sides == sides;
      StripOnlySides(sides);
    } else {
      assert (digits + sides)[1..] == digits[1..] + sides;
      StripDigitsThenSides(digits[1..], sides);
      assert digits == [digits[0]] + digits[1..];
    }
  }

  lemma {:induction false} StripOnlySides(sides: string)
    requires forall k :: 0 <= k < |sides| ==> IsSideLetter(sides[k])
    ensures StripSides(sides) == ""
  {
    if |sides| > 0 {
      StripOnlySides(sides[1..]);
    }
  }

  /** The designators of a parallel pair share a heading: `24L` and `24R`
      both name 240 degrees. */
  lemma ParallelDesignators()
    ensures Heading(Runway("24L", None)) == Some(240)
    ensures Heading(Runway("24R", None)) == Some(240)
  {
    assert Decimal(24) == "24" by {
      assert Decimal(2) == "2";
    }
    assert "24" + "L" == "24L";
    assert "24" + "R" == "24R";
    NumberedDesignatorHeading(24, "L");
    NumberedDesignatorHeading(24, "R");
  }

  /** A leading zero is read past: `06R` names 60 degrees. */
  lemma ZeroPaddedDesignator()
    ensures Heading(Runway("06R", None)) == Some(60)
  {
    assert StripSides("06R") == "06" by {
      assert StripSides("R") == "";
      assert StripSides("6R") == "6";
    }
    assert DigitsValue("06", 10) == 6 by {
      assert "06"[..1] == "0";
      assert "0"[..0] == "";
    }
    ParseIntOfDigits("06");
  }

  /** A designator without a number has no heading and can never be chosen. */
  lemma UnnumberedDesignator(rs: seq<Runway>, k: int, windDir: real, score: (real, int) -> real)
    requires 0 <= k < |rs| && !StartsWithNumber(StripSides(rs[k].id))
    ensures Heading(rs[k]).None?
    ensures !FirstBest(rs, k, windDir, score)
  {
    NoNumberReadsNaN(StripSides(rs[k].id));
  }

  /** A designator with no side letter and no leading number has no heading. */
  lemma LetteredDesignator(id: string)
    requires |id| > 0 && !IsSpace(id[0]) && id[0] != '-' && id[0] != '+' && !('0' <= id[0] <= '9')
    requires forall k :: 0 <= k < |id| ==> !IsSideLetter(id[k])
    ensures Heading(Runway(id, None)).None?
  {
    StripSidesKeepsPlainId(id);
    assert TrimStart(id) == id;
    NoNumberReadsNaN(id);
  }

  /** A lone side letter has no heading. */
  lemma SideLetterDesignator()
    ensures Heading(Runway("L", None)).None?
  {
    assert StripSides("L") == "";
    NoNumberReadsNaN("");
  }

  /** A helipad designator has no heading. */
  lemma HelipadDesignator()
    ensures Heading(Runway("H1", None)).None?
  {
    var id := "H1";
    assert id[0] == 'H' && id[1] == '1';
    LetteredDesignator(id);
  }

  /** A compass-point name has no heading. */
  lemma CompassDesignator()
    ensures Heading(Runway("NW", None)).None?
  {
    var id := "NW";
    assert id[0] == 'N' && id[1] == 'W';
    LetteredDesignator(id);
  }
}
