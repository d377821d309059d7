/** The space-weather coordinator's update: the solar flares of the last 24 hours, the
    geomagnetic storms in progress, and the four-level severity derived from them.

    Timestamps are seconds; a timestamp that `datetime.fromisoformat` rejects (a missing field
    reads as the empty string) is `None`. The three downloads are parameters. */
module SpaceWeather {
  import opened Wrappers

  const Day: int := 24 * 3600

  /** A DONKI solar flare: its start and its class (`"X2.1"`, `"M5.0"`; a missing class reads
      as the empty string). */
  datatype Flare = Flare(beginTime: Option<int>, classType: string)

  /** A DONKI geomagnetic storm: its start and end, and its Kp readings. `allKpIndex` is `None`
      when the field is missing; each reading's `kpIndex` is `None` when missing. */
  datatype Storm = Storm(startTime: Option<int>, endTime: Option<int>, allKpIndex: Option<seq<Option<real>>>)

  datatype Severity = Quiet | Elevated | StormLevel | Severe {
    /** The published name. */
    function Name(): string {
      match this
      case Quiet => "quiet"
      case Elevated => "elevated"
      case StormLevel => "storm"
      case Severe => "severe"
    }

    /** The position in the order quiet < elevated < storm < severe. */
    function Rank(): nat {
      match this
      case Quiet => 0
      case Elevated => 1
      case StormLevel => 2
      case Severe => 3
    }
  }

  /** What an update publishes; the coronal mass ejections are passed through as downloaded. */
  datatype SpaceWeatherData<C> = SpaceWeatherData(
    severity: Severity,
    flares24h: nat,
    flares: seq<Flare>,
    cmes: seq<C>,
    storms: seq<Storm>,
    lastUpdate: int)

  // ---------------------------------------------------------------- the two filters

  /** Whether a flare that started at `begin` is recent at `now`: strictly within 24 hours. */
  predicate IsRecent(begin: int, now: int) {
    begin > now - Day
  }

  /** The recent flares, in download order; a start time that cannot be read aborts the
      comprehension with `ValueError`. */
  function RecentFlares(flares: seq<Flare>, now: int): Result<seq<Flare>> {
    if flares == [] then Ok([])
    else
      var f := flares[0];
      if f.beginTime.None? then Err(ValueError)
      else
        var rest :- RecentFlares(flares[1..], now);
        Ok(if IsRecent(f.beginTime.value, now) then [f] + rest else rest)
  }

  /** Whether a storm is in progress at `now`, both ends included. The end is read only when
      the start is not after `now`; an unreadable time that is read aborts with `ValueError`. */
  function StormActive(s: Storm, now: int): Result<bool> {
    if s.startTime.None? then Err(ValueError)
    else if !(s.startTime.value <= now) then Ok(false)
    else if s.endTime.None? then Err(ValueError)
    else Ok(s.endTime.value >= now)
  }

  /** The storms in progress, in download order. */
  function ActiveStorms(storms: seq<Storm>, now: int): Result<seq<Storm>> {
    if storms == [] then Ok([])
    else
      var active :- StormActive(storms[0], now);
      var rest :- ActiveStorms(storms[1..], now);
      Ok(if active then [storms[0]] + rest else rest)
  }

  /** The recent-flare filter keeps exactly the flares that started less than 24 hours before
      `now`, and fails exactly when some flare's start cannot be read. */
  lemma {:induction false} RecentFlaresFacts(flares: seq<Flare>, now: int)
    ensures RecentFlares(flares, now).Err? <==> exists i :: 0 <= i < |flares| && flares[i].beginTime.None?
    ensures RecentFlares(flares, now).Ok? ==> |RecentFlares(flares, now).value| <= |flares|
    ensures RecentFlares(flares, now).Ok? ==> forall f :: f in RecentFlares(flares, now).value <==>
      f in flares && f.beginTime.Some? && IsRecent(f.beginTime.value, now)
  {
    if flares != [] {
      RecentFlaresFacts(flares[1..], now);
      assert flares == [flares[0]] + flares[1..];
    }
  }

  /** The storm filter keeps exactly the storms with start <= now <= end, and fails exactly when
      some storm's start, or the end of a storm that has started, cannot be read. */
  lemma {:induction false} ActiveStormsFacts(storms: seq<Storm>, now: int)
    ensures ActiveStorms(storms, now).Err? <==> exists i :: 0 <= i < |storms| && StormActive(storms[i], now).Err?
    ensures ActiveStorms(storms, now).Ok? ==> |ActiveStorms(storms, now).value| <= |storms|
    ensures ActiveStorms(storms, now).Ok? ==> forall s :: s in ActiveStorms(storms, now).value <==>
      s in storms && s.startTime.Some? && s.endTime.Some? && s.startTime.value <= now <= s.endTime.value
  {
    if storms != [] {
      ActiveStormsFacts(storms[1..], now);
      assert storms == [storms[0]] + storms[1..];
    }
  }

  // ---------------------------------------------------------------- the severity ladder

  predicate StartsWith(s: string, c: char) {
    |s| > 0 && s[0] == c
  }

  /** The flares whose class starts with `c`, in order. */
  function FlaresOfClass(flares: seq<Flare>, c: char): (r: seq<Flare>)
    ensures r != [] <==> exists i :: 0 <= i < |flares| && StartsWith(flares[i].classType, c)
  {
    if flares == [] then []
    else
      var rest := FlaresOfClass(flares[1..], c);
      if StartsWith(flares[0].classType, c) then [flares[0]] + rest
      else
        assert forall i :: 1 <= i < |flares| ==> flares[i] == flares[1..][i - 1];
        rest
  }

  /** A storm's first Kp reading: 0 when the field or the reading is missing; an empty list of
      readings raises `IndexError`. */
  function FirstKp(s: Storm): Result<real> {
    match s.allKpIndex
    case None => Ok(0.0)
    case Some(readings) => if readings == [] then Err(IndexError) else Ok(readings[0].GetOr(0.0))
  }

  /** `any(first Kp >= threshold for s in storms)`: left to right, stopping at the first hit. */
  function AnyKpAtLeast(storms: seq<Storm>, threshold: real): Result<bool> {
    if storms == [] then Ok(false)
    else
      var kp :- FirstKp(storms[0]);
      if kp >= threshold then Ok(true) else AnyKpAtLeast(storms[1..], threshold)
  }

  /** Some storm's first Kp reading is at least `threshold`. */
  predicate HasKpAtLeast(storms: seq<Storm>, threshold: real) {
    exists i :: 0 <= i < |storms| && FirstKp(storms[i]).Ok? && FirstKp(storms[i]).value >= threshold
  }

  /** Every storm's first Kp reading can be taken. */
  predicate KpReadable(storms: seq<Storm>) {
    forall i :: 0 <= i < |storms| ==> FirstKp(storms[i]).Ok?
  }

  /** `any` answers true only when some storm qualifies, answers false only after reading
      every storm and finding none, and fails only on an unreadable storm; when every storm is
      readable it answers whether one qualifies. */
  lemma {:induction false} AnyKpAtLeastFacts(storms: seq<Storm>, threshold: real)
    ensures AnyKpAtLeast(storms, threshold) == Ok(true) ==> HasKpAtLeast(storms, threshold)
    ensures AnyKpAtLeast(storms, threshold) == Ok(false) ==> KpReadable(storms) && !HasKpAtLeast(storms, threshold)
    ensures KpReadable(storms) ==> AnyKpAtLeast(storms, threshold) == Ok(HasKpAtLeast(storms, threshold))
    ensures AnyKpAtLeast(storms, threshold).Err? ==> !KpReadable(storms)
  {
    if storms != [] {
      AnyKpAtLeastFacts(storms[1..], threshold);
      var rest := storms[1..];
      if HasKpAtLeast(rest, threshold) {
        var i :| 0 <= i < |rest| && FirstKp(rest[i]).Ok? && FirstKp(rest[i]).value >= threshold;
        assert rest[i] == storms[i + 1];
      }
      if HasKpAtLeast(storms, threshold) && FirstKp(storms[0]).Ok? && FirstKp(storms[0]).value < threshold {
        var i :| 0 <= i < |storms| && FirstKp(storms[i]).Ok? && FirstKp(storms[i]).value >= threshold;
        assert storms[i] == rest[i - 1];
      }
      if KpReadable(storms) {
        assert forall i :: 0 <= i < |rest| ==> rest[i] == storms[i + 1];
      }
      if FirstKp(storms[0]).Ok? && AnyKpAtLeast(storms, threshold).Err? {
        var i :| 0 <= i < |rest| && FirstKp(rest[i]).Err?;
        assert rest[i] == storms[i + 1];
      }
    }
  }

  /** The if/elif chain over the recent flares and the active storms. Python's `or` and `and`
      stop early, so the Kp readings are looked at only when no flare already decides the
      level. */
  function Classify(recent: seq<Flare>, active: seq<Storm>): Result<Severity> {
    if FlaresOfClass(recent, 'X') != [] then Ok(Severe)
    else
      var severeStorm :- if active != [] then AnyKpAtLeast(active, 8.0) else Ok(false);
      if severeStorm then Ok(Severe)
      else if FlaresOfClass(recent, 'M') != [] then Ok(StormLevel)
      else
        var strongStorm :- if active != [] then AnyKpAtLeast(active, 6.0) else Ok(false);
        if strongStorm then Ok(StormLevel)
        else if recent != [] || active != [] then Ok(Elevated)
        else Ok(Quiet)
  }

  /** Whether a recent flare has a class starting with `c`. */
  predicate HasClass(recent: seq<Flare>, c: char) {
    exists i :: 0 <= i < |recent| && StartsWith(recent[i].classType, c)
  }

  /** The ladder stated directly: severe when an X flare or a storm of Kp 8 or more is present,
      otherwise storm when an M flare or a storm of Kp 6 or more is, otherwise elevated when
      anything at all is, otherwise quiet. */
  function Ladder(recent: seq<Flare>, active: seq<Storm>): Severity {
    if HasClass(recent, 'X') || HasKpAtLeast(active, 8.0) then Severe
    else if HasClass(recent, 'M') || HasKpAtLeast(active, 6.0) then StormLevel
    else if recent != [] || active != [] then Elevated
    else Quiet
  }

  /** Whenever the chain answers, it answers the ladder; it answers whenever every active storm
      has a readable Kp list. */
  lemma ClassifyIsLadder(recent: seq<Flare>, active: seq<Storm>)
    ensures Classify(recent, active).Ok? ==> Classify(recent, active).value == Ladder(recent, active)
    ensures KpReadable(active) ==> Classify(recent, active).Ok?
  {
    AnyKpAtLeastFacts(active, 8.0);
    AnyKpAtLeastFacts(active, 6.0);
  }

  /** Each level of the ladder, as an if-and-only-if. */
  lemma LadderLevels(recent: seq<Flare>, active: seq<Storm>)
    ensures Ladder(recent, active) == Severe <==> HasClass(recent, 'X') || HasKpAtLeast(active, 8.0)
    ensures Ladder(recent, active) == StormLevel <==>
      !(HasClass(recent, 'X') || HasKpAtLeast(active, 8.0)) && (HasClass(recent, 'M') || HasKpAtLeast(active, 6.0))
    ensures Ladder(recent, active) == Elevated <==>
      && !(HasClass(recent, 'X') || HasKpAtLeast(active, 8.0) || HasClass(recent, 'M') || HasKpAtLeast(active, 6.0))
      && (recent != [] || active != [])
    ensures Ladder(recent, active) == Quiet <==> recent == [] && active == []
  {
    if recent == [] && active == [] {
      assert !HasClass(recent, 'X') && !HasClass(recent, 'M');
      assert !HasKpAtLeast(active, 8.0) && !HasKpAtLeast(active, 6.0);
    }
  }

  /** One more recent flare never lowers the severity. */
  lemma LadderMonotoneInFlares(recent: seq<Flare>, f: Flare, active: seq<Storm>)
    ensures Ladder(recent, active).Rank() <= Ladder(recent + [f], active).Rank()
  {
    var more := recent + [f];
    if HasClass(recent, 'X') {
      var i :| 0 <= i < |recent| && StartsWith(recent[i].classType, 'X');
      assert more[i] == recent[i];
    }
    if HasClass(recent, 'M') {
      var i :| 0 <= i < |recent| && StartsWith(recent[i].classType, 'M');
      assert more[i] == recent[i];
    }
  }

  /** One more active storm never lowers the severity. */
  lemma LadderMonotoneInStorms(recent: seq<Flare>, active: seq<Storm>, s: Storm)
    ensures Ladder(recent, active).Rank() <= Ladder(recent, active + [s]).Rank()
  {
    var more := active + [s];
    if HasKpAtLeast(active, 8.0) {
      var i :| 0 <= i < |active| && FirstKp(active[i]).Ok? && FirstKp(active[i]).value >= 8.0;
      assert more[i] == active[i];
    }
    if HasKpAtLeast(active, 6.0) {
      var i :| 0 <= i < |active| && FirstKp(active[i]).Ok? && FirstKp(active[i]).value >= 6.0;
      assert more[i] == active[i];
    }
  }

  // ---------------------------------------------------------------- the update

  /** `_async_update_data` at instant `now`, given the three downloads (flares, coronal mass
      ejections, storms, fetched in that order); any error becomes `UpdateFailed`. */
  function SpaceWeatherUpdate<C>(flares: Result<seq<Flare>>, cmes: Result<seq<C>>, storms: Result<seq<Storm>>,
                                 now: int): Result<SpaceWeatherData<C>> {
    var flareList :- flares;
    var cmeList :- cmes;
    var stormList :- storms;
    var recent :- RecentFlares(flareList, now);
    var active :- ActiveStorms(stormList, now);
    var severity :- Classify(recent, active);
    Ok(SpaceWeatherData(severity, |recent|, recent, cmeList, active, now))
  }

  /** What an update publishes: the flare count is the number of recent flares, the storms are
      the active ones, the ejections are passed through, and the severity is the ladder over the
      recent flares and active storms; it succeeds whenever the downloads succeed and every
      time and Kp list that is read can be read. */
  lemma SpaceWeatherUpdateFacts<C>(flares: Result<seq<Flare>>, cmes: Result<seq<C>>, storms: Result<seq<Storm>>,
                                   now: int)
    ensures var r := SpaceWeatherUpdate(flares, cmes, storms, now);
      && (flares.Err? || cmes.Err? || storms.Err? ==> r.Err?)
      && (r.Ok? ==>
        && r.value.flares24h == |r.value.flares|
        && r.value.flares == RecentFlares(flares.value, now).value
        && r.value.storms == ActiveStorms(storms.value, now).value
        && r.value.cmes == cmes.value
        && r.value.severity == Ladder(r.value.flares, r.value.storms)
        && r.value.lastUpdate == now)
    ensures flares.Ok? && cmes.Ok? && storms.Ok? && RecentFlares(flares.value, now).Ok?
      && ActiveStorms(storms.value, now).Ok? && KpReadable(ActiveStorms(storms.value, now).value)
      ==> SpaceWeatherUpdate(flares, cmes, storms, now).Ok?
  {
    if && flares.Ok? && cmes.Ok? && storms.Ok? && RecentFlares(flares.value, now).Ok?
       && ActiveStorms(storms.value, now).Ok? {
      ClassifyIsLadder(RecentFlares(flares.value, now).value, ActiveStorms(storms.value, now).value);
    }
  }
}
