/** The sky calculator: darkness and astronomical night from the sun's altitude, the local
    sidereal time as `HH:MM`, the constellations of a fixed table that pass the visibility test,
    and the brightest object among the Moon and a fixed table of stars.

    Every value Skyfield computes (the sun's and the Moon's altitude, the local sidereal time in
    hours) is a parameter, and the trigonometry of the visibility test is an oracle `Trig`. */
module SkyCalculator {
  import opened Wrappers
  import opened PyText
  import opened Sorting

  // ---------------------------------------------------------------- darkness and night

  /** `get_darkness_level` for the sun at altitude `sunAlt` degrees: 0.0 in daylight, then one
      level for each twilight band of 6 degrees, and 1.0 from 18 degrees below the horizon. */
  function DarknessLevel(sunAlt: real): real {
    if sunAlt > 0.0 then 0.0
    else if sunAlt > -6.0 then 0.3
    else if sunAlt > -12.0 then 0.6
    else if sunAlt > -18.0 then 0.8
    else 1.0
  }

  /** `is_astronomical_night`: the sun more than 18 degrees below the horizon. */
  predicate IsAstronomicalNight(sunAlt: real) {
    sunAlt < -18.0
  }

  /** The darkness level is one of five values, each on its band of sun altitudes. */
  lemma DarknessBands(sunAlt: real)
    ensures sunAlt > 0.0 ==> DarknessLevel(sunAlt) == 0.0
    ensures -6.0 < sunAlt <= 0.0 ==> DarknessLevel(sunAlt) == 0.3
    ensures -12.0 < sunAlt <= -6.0 ==> DarknessLevel(sunAlt) == 0.6
    ensures -18.0 < sunAlt <= -12.0 ==> DarknessLevel(sunAlt) == 0.8
    ensures sunAlt <= -18.0 ==> DarknessLevel(sunAlt) == 1.0
    ensures DarknessLevel(sunAlt) in {0.0, 0.3, 0.6, 0.8, 1.0}
    ensures 0.0 <= DarknessLevel(sunAlt) <= 1.0
  {
  }

  /** The higher the sun, the lower (or equal) the darkness. */
  lemma DarknessNonIncreasing(lower: real, higher: real)
    requires lower <= higher
    ensures DarknessLevel(higher) <= DarknessLevel(lower)
  {
  }

  /** Astronomical night is the darkest level; at exactly 18 degrees below the horizon the
      level is already 1.0 while it is not yet night. */
  lemma NightIsDarkest(sunAlt: real)
    ensures IsAstronomicalNight(sunAlt) ==> DarknessLevel(sunAlt) == 1.0
    ensures sunAlt == -18.0 ==> !IsAstronomicalNight(sunAlt) && DarknessLevel(sunAlt) == 1.0
    ensures DarknessLevel(sunAlt) == 1.0 <==> sunAlt <= -18.0
  {
  }

  // ---------------------------------------------------------------- sidereal time

  /** `get_sidereal_time` for a local sidereal time of `lst` hours: the hours and the minutes,
      each truncated by `int` and formatted with `:02d`. */
  function SiderealTime(lst: real): string {
    var hours := Trunc(lst);
    var minutes := Trunc((lst - hours as real) * 60.0);
    TwoDigits(hours) + ":" + TwoDigits(minutes)
  }

  /** For a sidereal time in [0, 24) hours the text is `HH:MM`: two digits, a colon and two
      digits, which read back as the whole minutes in `lst` split into hours (0 to 23) and
      minutes past the hour (0 to 59). */
  lemma SiderealTimeFormat(lst: real)
    requires 0.0 <= lst < 24.0
    ensures |SiderealTime(lst)| == 5 && SiderealTime(lst)[2] == ':'
    ensures var total := (lst * 60.0).Floor;
      && 0 <= total / 60 <= 23
      && ParseInt(SiderealTime(lst)[..2]) == Some(total / 60)
      && ParseInt(SiderealTime(lst)[3..]) == Some(total % 60)
  {
    var h := lst.Floor;
    var m := ((lst - h as real) * 60.0).Floor;
    MinutesOfHour(lst, h, m);
    var total := (lst * 60.0).Floor;
    assert total / 60 == h && total % 60 == m;
    SiderealTimeText(lst, h, m);
  }

  /** The text for hours `h` and minutes `m` when they are the truncations the source takes. */
  lemma SiderealTimeText(lst: real, h: int, m: int)
    requires h == Trunc(lst) && m == Trunc((lst - h as real) * 60.0)
    requires 0 <= h <= 99 && 0 <= m <= 99
    ensures var s := SiderealTime(lst);
      |s| == 5 && s[2] == ':' && ParseInt(s[..2]) == Some(h) && ParseInt(s[3..]) == Some(m)
  {
    assert SiderealTime(lst) == TwoDigits(h) + ":" + TwoDigits(m);
    HoursMinutesText(h, m);
  }

  /** Hours and minutes below 100 are written `HH:MM`, and each half reads back. */
  lemma HoursMinutesText(h: int, m: int)
    requires 0 <= h <= 99 && 0 <= m <= 99
    ensures var s := TwoDigits(h) + ":" + TwoDigits(m);
      |s| == 5 && s[2] == ':' && ParseInt(s[..2]) == Some(h) && ParseInt(s[3..]) == Some(m)
  {
    TwoDigitsReadsBack(h);
    TwoDigitsReadsBack(m);
    var a, b := TwoDigits(h), TwoDigits(m);
    var s := a + ":" + b;
    assert s[..2] == a && s[3..] == b;
  }

  /** The whole minutes past the hour are below 60 and, with the whole hours, add up to the
      whole minutes in `lst`; both are what `int()` gives for these non-negative values. */
  lemma MinutesOfHour(lst: real, h: int, m: int)
    requires 0.0 <= lst && h == lst.Floor && m == ((lst - h as real) * 60.0).Floor
    ensures 0 <= m <= 59 && h * 60 + m == (lst * 60.0).Floor
    ensures Trunc(lst) == h && Trunc((lst - h as real) * 60.0) == m
  {
    var total := h * 60 + m;
    assert total as real <= lst * 60.0 < total as real + 1.0;
  }

  /** A number from 0 to 99 is written with exactly two digits that `int()` reads back. */
  lemma TwoDigitsReadsBack(n: int)
    requires 0 <= n <= 99
    ensures |TwoDigits(n)| == 2 && ParseInt(TwoDigits(n)) == Some(n)
  {
    assert Pow10(2) == 100;
    DecimalFits(n, 2);
    ZeroPaddedParses(n, 2);
  }

  // ---------------------------------------------------------------- the tables

  datatype Star = Star(name: string, ra: real, dec: real, mag: real)

  datatype Constellation = Constellation(name: string, ra: real, dec: real)

  /** The eight bright stars: right ascension in hours, declination in degrees, magnitude. */
  const BrightStars: seq<Star> := [
    Star("Sirius", 6.7525, -16.7161, -1.46),
    Star("Canopus", 6.3992, -52.6956, -0.74),
    Star("Arcturus", 14.2610, 19.1824, -0.05),
    Star("Vega", 18.6156, 38.7837, 0.03),
    Star("Capella", 5.2782, 45.9980, 0.08),
    Star("Rigel", 5.2423, -8.2016, 0.18),
    Star("Procyon", 7.6550, 5.2249, 0.40),
    Star("Betelgeuse", 5.9195, 7.4071, 0.45)
  ]

  /** The eight major constellations: right ascension in hours, declination in degrees. */
  const Constellations: seq<Constellation> := [
    Constellation("Orion", 5.5, 5.0),
    Constellation("Ursa Major", 11.0, 50.0),
    Constellation("Cassiopeia", 1.0, 60.0),
    Constellation("Cygnus", 20.5, 45.0),
    Constellation("Lyra", 18.8, 36.8),
    Constellation("Scorpius", 16.9, -30.0),
    Constellation("Leo", 10.7, 13.0),
    Constellation("Taurus", 4.5, 16.5)
  ]

  /** The magnitude the source gives the Moon whenever it is up (a full Moon). */
  const MoonMagnitude: real := -12.6

  // ---------------------------------------------------------------- the visibility test

  /** The trigonometry of the visibility test, done with `math` in the source:
      `sinAltitude(dec, lat, ha)` is `sin(dec)sin(lat) + cos(dec)cos(lat)cos(ha)` for angles in
      degrees, and `acosDegrees(x)` is `degrees(acos(x))` for x in [-1, 1]. */
  datatype Trig = Trig(sinAltitude: (real, real, real) -> real, acosDegrees: real -> real)

  /** `max(-1, min(1, x))`. */
  function Clamp(x: real): (r: real)
    ensures -1.0 <= r <= 1.0
    ensures -1.0 <= x <= 1.0 ==> r == x
    ensures x < -1.0 ==> r == -1.0
    ensures x > 1.0 ==> r == 1.0
  {
    if x > 1.0 then 1.0 else if x < -1.0 then -1.0 else x
  }

  /** The value the source compares with 10: the arc cosine of the clamped sine of the
      altitude, for an object at right ascension `ra` hours and declination `dec` degrees, seen
      from latitude `lat` at sidereal time `lst`. (This is the angle from the zenith.) */
  function TestAngle(lat: real, lst: real, ra: real, dec: real, trig: Trig): real {
    trig.acosDegrees(Clamp(trig.sinAltitude(dec, lat, (lst - ra) * 15.0)))
  }

  /** Whether an object passes the test `alt > 10`. */
  predicate Passes(lat: real, lst: real, ra: real, dec: real, trig: Trig) {
    TestAngle(lat, lst, ra, dec, trig) > 10.0
  }

  /** The names of the constellations of `table` that pass the test, in table order. */
  function NamesPassing(table: seq<Constellation>, lat: real, lst: real, trig: Trig): seq<string> {
    if table == [] then []
    else
      var c := table[|table| - 1];
      NamesPassing(table[..|table| - 1], lat, lst, trig) +
        if Passes(lat, lst, c.ra, c.dec, trig) then [c.name] else []
  }

  /** A name is listed exactly when some constellation of the table with that name passes;
      no more names are listed than the table has. */
  lemma {:induction false} NamesPassingMembers(table: seq<Constellation>, lat: real, lst: real, trig: Trig)
    ensures |NamesPassing(table, lat, lst, trig)| <= |table|
    ensures forall name :: name in NamesPassing(table, lat, lst, trig) <==>
      exists i :: 0 <= i < |table| && table[i].name == name && Passes(lat, lst, table[i].ra, table[i].dec, trig)
  {
    if table != [] {
      var init := table[..|table| - 1];
      NamesPassingMembers(init, lat, lst, trig);
      forall name ensures name in NamesPassing(table, lat, lst, trig) <==>
        exists i :: 0 <= i < |table| && table[i].name == name && Passes(lat, lst, table[i].ra, table[i].dec, trig)
      {
        if exists i :: 0 <= i < |init| && init[i].name == name && Passes(lat, lst, init[i].ra, init[i].dec, trig) {
          var i :| 0 <= i < |init| && init[i].name == name && Passes(lat, lst, init[i].ra, init[i].dec, trig);
          assert table[i] == init[i];
        }
        if exists i :: 0 <= i < |table| - 1 && table[i].name == name && Passes(lat, lst, table[i].ra, table[i].dec, trig) {
          var i :| 0 <= i < |table| - 1 && table[i].name == name && Passes(lat, lst, table[i].ra, table[i].dec, trig);
          assert init[i] == table[i];
        }
      }
    }
  }

  /** Because the test compares the angle from the zenith (not the altitude) with 10 degrees,
      an object on the horizon is listed and an object at the zenith is not. */
  lemma TestIsZenithAngle(lat: real, lst: real, ra: real, dec: real, trig: Trig)
    requires trig.acosDegrees(0.0) == 90.0 && trig.acosDegrees(1.0) == 0.0
    ensures trig.sinAltitude(dec, lat, (lst - ra) * 15.0) == 0.0 ==> Passes(lat, lst, ra, dec, trig)
    ensures trig.sinAltitude(dec, lat, (lst - ra) * 15.0) >= 1.0 ==> !Passes(lat, lst, ra, dec, trig)
  {
  }

  // ---------------------------------------------------------------- the brightest object

  /** A candidate for the brightest object, and the result dictionary: name, type, magnitude,
      and the test angle for a star (the Moon's entry and the empty result have none). */
  datatype BrightObject = BrightObject(name: string, kind: string, magnitude: real, altitude: Option<real>)

  /** The result when there is no candidate. */
  const NoObject := BrightObject("None", "none", 0.0, None)

  const Moon := BrightObject("Moon", "moon", MoonMagnitude, None)

  /** The Moon is a candidate when it is above the horizon. */
  function MoonCandidates(moonAlt: real): seq<BrightObject> {
    if moonAlt > 0.0 then [Moon] else []
  }

  /** The candidate entry for star `s`. */
  function StarObject(s: Star, lat: real, lst: real, trig: Trig): BrightObject {
    BrightObject(s.name, "star", s.mag, Some(TestAngle(lat, lst, s.ra, s.dec, trig)))
  }

  /** The stars of `stars` that pass the test, as candidates, in table order. */
  function StarCandidates(stars: seq<Star>, lat: real, lst: real, trig: Trig): seq<BrightObject> {
    if stars == [] then []
    else
      var s := stars[|stars| - 1];
      StarCandidates(stars[..|stars| - 1], lat, lst, trig) +
        if Passes(lat, lst, s.ra, s.dec, trig) then [StarObject(s, lat, lst, trig)] else []
  }

  lemma StarCandidatesStep(stars: seq<Star>, i: nat, lat: real, lst: real, trig: Trig)
    requires i < |stars|
    ensures StarCandidates(stars[..i + 1], lat, lst, trig) == StarCandidates(stars[..i], lat, lst, trig) +
      if Passes(lat, lst, stars[i].ra, stars[i].dec, trig) then [StarObject(stars[i], lat, lst, trig)] else []
  {
    assert stars[..i + 1][..i] == stars[..i];
  }

  lemma BestOfStep(cands: seq<BrightObject>, c: BrightObject)
    ensures BestOf(cands + [c]) ==
      if BestOf(cands).None? || c.magnitude < BestOf(cands).value.magnitude then Some(c) else BestOf(cands)
  {
    assert (cands + [c])[..|cands|] == cands;
  }

  /** One step of the brightest-object loop: the i-th star replaces the best so far exactly
      when it passes the test and is strictly brighter. */
  lemma BrightestStep(moon: seq<BrightObject>, stars: seq<Star>, i: nat, lat: real, lst: real, trig: Trig)
    requires i < |stars|
    ensures var best := BestOf(moon + StarCandidates(stars[..i], lat, lst, trig));
      BestOf(moon + StarCandidates(stars[..i + 1], lat, lst, trig)) ==
        if Passes(lat, lst, stars[i].ra, stars[i].dec, trig) && (best.None? || stars[i].mag < best.value.magnitude)
        then Some(StarObject(stars[i], lat, lst, trig)) else best
  {
    var prefix := moon + StarCandidates(stars[..i], lat, lst, trig);
    StarCandidatesStep(stars, i, lat, lst, trig);
    if Passes(lat, lst, stars[i].ra, stars[i].dec, trig) {
      BestOfStep(prefix, StarObject(stars[i], lat, lst, trig));
      assert prefix + [StarObject(stars[i], lat, lst, trig)] == moon + StarCandidates(stars[..i + 1], lat, lst, trig);
    } else {
      assert prefix == moon + StarCandidates(stars[..i + 1], lat, lst, trig);
    }
  }

  /** The running best over `cands`: a candidate replaces the best so far only when strictly
      brighter (a smaller magnitude). */
  function BestOf(cands: seq<BrightObject>): Option<BrightObject> {
    if cands == [] then None
    else
      var best := BestOf(cands[..|cands| - 1]);
      var c := cands[|cands| - 1];
      if best.None? || c.magnitude < best.value.magnitude then Some(c) else best
  }

  /** The best candidate is the first one of least magnitude: it is a candidate, none is
      brighter, and every candidate before it is strictly fainter. There is one exactly when
      there is a candidate. */
  lemma {:induction false} BestOfIsFirstMinimum(cands: seq<BrightObject>)
    ensures BestOf(cands).None? <==> cands == []
    ensures BestOf(cands).Some? ==> exists k ::
      && 0 <= k < |cands| && cands[k] == BestOf(cands).value
      && (forall j :: 0 <= j < |cands| ==> BestOf(cands).value.magnitude <= cands[j].magnitude)
      && (forall j :: 0 <= j < k ==> BestOf(cands).value.magnitude < cands[j].magnitude)
  {
    if cands != [] {
      var init := cands[..|cands| - 1];
      BestOfIsFirstMinimum(init);
      var c := cands[|cands| - 1];
      var b := BestOf(cands).value;
      if BestOf(init).None? || c.magnitude < BestOf(init).value.magnitude {
        var k := |cands| - 1;
        assert cands[k] == b;
        forall j | 0 <= j < |cands| ensures b.magnitude <= cands[j].magnitude {
          if j < k {
            assert cands[j] == init[j];
          }
        }
      } else {
        var k :| 0 <= k < |init| && init[k] == b
          && (forall j :: 0 <= j < |init| ==> b.magnitude <= init[j].magnitude)
          && (forall j :: 0 <= j < k ==> b.magnitude < init[j].magnitude);
        assert cands[k] == b;
        forall j | 0 <= j < |cands| ensures b.magnitude <= cands[j].magnitude {
          if j < |init| {
            assert cands[j] == init[j];
          }
        }
        forall j | 0 <= j < k ensures b.magnitude < cands[j].magnitude {
          assert cands[j] == init[j];
        }
      }
    }
  }

  /** A first candidate strictly brighter than every other one is the best. */
  lemma {:induction false} BestOfLeader(first: BrightObject, rest: seq<BrightObject>)
    requires forall j :: 0 <= j < |rest| ==> first.magnitude < rest[j].magnitude
    ensures BestOf([first] + rest) == Some(first)
  {
    if rest != [] {
      var init := rest[..|rest| - 1];
      BestOfLeader(first, init);
      assert ([first] + rest)[..|rest|] == [first] + init;
    } else {
      assert [first] + rest == [first];
    }
  }

  /** Every table star is a candidate only with its own magnitude, all fainter than the Moon. */
  lemma {:induction false} StarCandidatesFainterThanMoon(stars: seq<Star>, lat: real, lst: real, trig: Trig)
    requires forall i :: 0 <= i < |stars| ==> stars[i].mag > MoonMagnitude
    ensures forall j :: 0 <= j < |StarCandidates(stars, lat, lst, trig)| ==>
      StarCandidates(stars, lat, lst, trig)[j].magnitude > MoonMagnitude
  {
    if stars != [] {
      StarCandidatesFainterThanMoon(stars[..|stars| - 1], lat, lst, trig);
    }
  }

  /** With the source's table, the Moon is the brightest object whenever it is up. */
  lemma MoonOutshinesTableStars(moonAlt: real, lat: real, lst: real, trig: Trig)
    requires moonAlt > 0.0
    ensures BestOf(MoonCandidates(moonAlt) + StarCandidates(BrightStars, lat, lst, trig)) == Some(Moon)
  {
    StarCandidatesFainterThanMoon(BrightStars, lat, lst, trig);
    BestOfLeader(Moon, StarCandidates(BrightStars, lat, lst, trig));
  }

  // ---------------------------------------------------------------- the calculator object

  /** The methods a calculator object has; an attribute outside this set raises
      `AttributeError`. */
  const CalculatorMethods: set<string> := {
    "get_sidereal_time", "is_astronomical_night", "get_darkness_level",
    "get_visible_constellations", "get_brightest_object"
  }

  /** A Python `datetime`: an instant in seconds, and whether it carries a time zone. */
  datatype DateTime = DateTime(seconds: int, aware: bool)

  /** Skyfield's `ts.from_datetime`, which every query of the calculator starts with: it
      refuses a `datetime` without a time zone with `ValueError`. */
  function FromDatetime(t: DateTime): Result<int> {
    if t.aware then Ok(t.seconds) else Err(ValueError)
  }

  class SkyCalculator {
    const latitude: real
    const longitude: real
    const elevation: real
    const brightStars: seq<Star>
    const constellations: seq<Constellation>
    const methods: set<string>

    /** A calculator for the observer at this place, with the fixed tables. */
    constructor (latitude: real, longitude: real, elevation: real)
      ensures this.latitude == latitude && this.longitude == longitude && this.elevation == elevation
      ensures brightStars == BrightStars && constellations == Constellations
      ensures methods == CalculatorMethods
    {
      this.latitude := latitude;
      this.longitude := longitude;
      this.elevation := elevation;
      brightStars := BrightStars;
      constellations := Constellations;
      methods := CalculatorMethods;
    }

    /** `get_visible_constellations` at sidereal time `lst`: the append loop over the table. */
    method GetVisibleConstellations(lst: real, trig: Trig) returns (visible: seq<string>)
      ensures visible == NamesPassing(constellations, latitude, lst, trig)
    {
      visible := [];
      for i := 0 to |constellations|
        invariant visible == NamesPassing(constellations[..i], latitude, lst, trig)
      {
        assert constellations[..i + 1][..i] == constellations[..i];
        var c := constellations[i];
        if TestAngle(latitude, lst, c.ra, c.dec, trig) > 10.0 {
          visible := visible + [c.name];
        }
      }
      assert constellations[..|constellations|] == constellations;
    }

    /** `get_brightest_object` with the Moon at altitude `moonAlt` and sidereal time `lst`:
        the Moon first, then the table stars, each replacing the best so far when it passes
        the test and is strictly brighter; `NoObject` when nothing qualifies. */
    method GetBrightestObject(moonAlt: real, lst: real, trig: Trig) returns (result: BrightObject)
      ensures result == BestOf(MoonCandidates(moonAlt) + StarCandidates(brightStars, latitude, lst, trig)).GetOr(NoObject)
    {
      var brightest: Option<BrightObject> := None;
      var maxMag: Key := Infinity;
      if moonAlt > 0.0 {
        var moonMag := MoonMagnitude;
        if KeyLess(Finite(moonMag), maxMag) {
          maxMag := Finite(moonMag);
          brightest := Some(Moon);
        }
      }
      var moon := MoonCandidates(moonAlt);
      assert moon + StarCandidates(brightStars[..0], latitude, lst, trig) == moon;
      for i := 0 to |brightStars|
        invariant brightest == BestOf(moon + StarCandidates(brightStars[..i], latitude, lst, trig))
        invariant maxMag == if brightest.None? then Infinity else Finite(brightest.value.magnitude)
      {
        var star := brightStars[i];
        BrightestStep(moon, brightStars, i, latitude, lst, trig);
        var alt := TestAngle(latitude, lst, star.ra, star.dec, trig);
        if alt > 10.0 && KeyLess(Finite(star.mag), maxMag) {
          maxMag := Finite(star.mag);
          brightest := Some(BrightObject(star.name, "star", star.mag, Some(alt)));
        }
      }
      assert brightStars[..|brightStars|] == brightStars;
      result := if brightest.Some? then brightest.value else NoObject;
    }
  }
}
