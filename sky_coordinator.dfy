/** The sky coordinator's update: the five calculator answers for one instant and the
    good-stargazing rule, assembled into the published data.

    The Skyfield values for the instant (the sun's and the Moon's altitude in degrees, the
    local sidereal time in hours) and the trigonometry are parameters. */
module SkyCoordinator {
  import opened Wrappers
  import opened SkyCalculator

  /** What an update publishes. */
  datatype SkyData = SkyData(
    astronomicalNight: bool,
    darknessLevel: real,
    visibleConstellations: seq<string>,
    brightestObject: BrightObject,
    siderealTime: string,
    goodStargazing: bool,
    lastUpdate: int)

  /** The good-stargazing rule: astronomical night, darkness above 0.7 and more than five
      constellations passing the visibility test. */
  predicate GoodStargazing(night: bool, darkness: real, constellationCount: nat) {
    night && darkness > 0.7 && constellationCount > 5
  }

  /** The data an update at instant `now` publishes when the calculator answers, for an
      observer at latitude `lat` with the source's tables. */
  function SkyReport(lat: real, sunAlt: real, moonAlt: real, lst: real, trig: Trig, now: int): SkyData {
    var night := IsAstronomicalNight(sunAlt);
    var darkness := DarknessLevel(sunAlt);
    var visible := NamesPassing(Constellations, lat, lst, trig);
    var brightest := BestOf(MoonCandidates(moonAlt) + StarCandidates(BrightStars, lat, lst, trig)).GetOr(NoObject);
    SkyData(night, darkness, visible, brightest, SiderealTime(lst), GoodStargazing(night, darkness, |visible|), now)
  }

  /** The darkness condition adds nothing: good stargazing holds exactly when the sun is more
      than 18 degrees below the horizon and more than five constellations pass. */
  lemma GoodStargazingIff(sunAlt: real, constellationCount: nat)
    ensures GoodStargazing(IsAstronomicalNight(sunAlt), DarknessLevel(sunAlt), constellationCount) <==>
      sunAlt < -18.0 && constellationCount > 5
  {
    NightIsDarkest(sunAlt);
  }

  /** The published fields: night and darkness agree (night means the darkest level), the
      constellations are at most the eight of the table and are exactly the passing ones, the
      brightest object is the Moon whenever it is up, good stargazing is night with more than
      five constellations, and the time stamp is the instant of the update. */
  lemma SkyReportFacts(lat: real, sunAlt: real, moonAlt: real, lst: real, trig: Trig, now: int)
    ensures var d := SkyReport(lat, sunAlt, moonAlt, lst, trig, now);
      && (d.astronomicalNight ==> d.darknessLevel == 1.0)
      && |d.visibleConstellations| <= |Constellations|
      && (forall name :: name in d.visibleConstellations <==>
            exists i :: 0 <= i < |Constellations| && Constellations[i].name == name
              && Passes(lat, lst, Constellations[i].ra, Constellations[i].dec, trig))
      && (moonAlt > 0.0 ==> d.brightestObject == Moon)
      && (d.goodStargazing <==> sunAlt < -18.0 && |d.visibleConstellations| > 5)
      && d.lastUpdate == now
  {
    NightIsDarkest(sunAlt);
    NamesPassingMembers(Constellations, lat, lst, trig);
    if moonAlt > 0.0 {
      MoonOutshinesTableStars(moonAlt, lat, lst, trig);
    }
    GoodStargazingIff(sunAlt, |NamesPassing(Constellations, lat, lst, trig)|);
  }

  class SkyCoordinator {
    const calculator: SkyCalculator

    /** A coordinator with a calculator for the observer at `latitude`, `longitude`
        (elevation 0). */
    constructor (latitude: real, longitude: real)
      ensures fresh(calculator)
      ensures calculator.latitude == latitude && calculator.longitude == longitude && calculator.elevation == 0.0
      ensures calculator.brightStars == BrightStars && calculator.constellations == Constellations
      ensures calculator.methods == CalculatorMethods
    {
      calculator := new SkyCalculator(latitude, longitude, 0.0);
    }

    /** `_async_update_data` as written: it first asks the calculator for `_ensure_eph_loaded`,
        a method the calculator does not have (`AttributeError`); were it there, the update
        would go on to query the calculator at `datetime.now()`, which carries no time zone,
        and fail with `ValueError`. Either error is published as `UpdateFailed`. */
    method UpdateAsWritten(sunAlt: real, moonAlt: real, lst: real, trig: Trig, now: int)
      returns (r: Result<SkyData>)
      requires calculator.brightStars == BrightStars && calculator.constellations == Constellations
      ensures r.Err?
      ensures "_ensure_eph_loaded" !in calculator.methods ==> r == Err(AttributeError)
      ensures "_ensure_eph_loaded" in calculator.methods ==> r == Err(ValueError)
    {
      if "_ensure_eph_loaded" !in calculator.methods {
        return Err(AttributeError);
      }
      r := UpdateAt(DateTime(now, false), sunAlt, moonAlt, lst, trig);
    }

    /** `_async_update_data` without that call (the calculator loads its ephemeris when it is
        built) and with the current time taken with a time zone, as the satellite tracker does
        before it calls Skyfield: the five answers for the instant `now`. */
    method Update(sunAlt: real, moonAlt: real, lst: real, trig: Trig, now: int) returns (r: Result<SkyData>)
      requires calculator.brightStars == BrightStars && calculator.constellations == Constellations
      ensures r == Ok(SkyReport(calculator.latitude, sunAlt, moonAlt, lst, trig, now))
    {
      r := UpdateAt(DateTime(now, true), sunAlt, moonAlt, lst, trig);
    }

    /** The calculations of `_async_update_data` at `time`: the five answers, all from the
        same Skyfield values, or `ValueError` when `time` has no time zone. */
    method UpdateAt(time: DateTime, sunAlt: real, moonAlt: real, lst: real, trig: Trig) returns (r: Result<SkyData>)
      requires calculator.brightStars == BrightStars && calculator.constellations == Constellations
      ensures !time.aware ==> r == Err(ValueError)
      ensures time.aware ==> r == Ok(SkyReport(calculator.latitude, sunAlt, moonAlt, lst, trig, time.seconds))
    {
      var t := FromDatetime(time);
      if t.Err? {
        return Err(t.error);
      }
      var now := t.value;
      var night := IsAstronomicalNight(sunAlt);
      var darkness := DarknessLevel(sunAlt);
      var visible := calculator.GetVisibleConstellations(lst, trig);
      var brightest := calculator.GetBrightestObject(moonAlt, lst, trig);
      var sidereal := SiderealTime(lst);
      var good := night && darkness > 0.7 && |visible| > 5;
      return Ok(SkyData(night, darkness, visible, brightest, sidereal, good, now));
    }
  }
}
