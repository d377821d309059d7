/** The satellite tracker: a catalog of two-line element sets (TLEs) downloaded from CelesTrak
    and cached for a day, the list of satellites above a given elevation at an instant, and the
    search for a satellite's next pass over the observer.

    Time is a whole number of seconds. Orbit propagation (Skyfield's SGP4 and the observer's
    topocentric frame) is an oracle `Propagator`; `None` from it stands for an exception raised by
    the library. The downloaded feed is a parameter: `Some(text)`, or `None` when the request
    failed. */
module SatelliteTracker {
  import opened Wrappers
  import opened PyText
  import opened Dicts

  /** How long a downloaded catalog stays fresh: 24 hours. */
  const CacheLifetime: int := 24 * 3600
  /** The step of the rise search: 0.1 hour. */
  const CoarseStep: int := 360
  /** The step of the set and peak searches: one minute. */
  const FineStep: int := 60

  /** The two element lines of one satellite. */
  datatype TlePair = TlePair(line1: string, line2: string)

  /** A satellite's apparent position seen by the observer: degrees above the horizon, degrees
      east of north, and slant range in kilometres. */
  datatype Topocentric = Topocentric(altitude: real, azimuth: real, distanceKm: real)

  /** The position of the satellite with these elements at instant `t`, or `None` where the
      propagation library raises. */
  type Propagator = (TlePair, int) -> Option<Topocentric>

  /** The catalog: element lines and names, both keyed by NORAD catalog number. */
  datatype Catalog = Catalog(tles: Dict<int, TlePair>, names: map<int, string>) {
    ghost predicate Valid() {
      tles.Valid() && names.Keys == tles.entries.Keys
    }
  }

  function EmptyCatalog(): (c: Catalog)
    ensures c.Valid() && c.tles.IsEmpty() && c.names == map[]
  {
    Catalog(EmptyDict(), map[])
  }

  // ---------------------------------------------------------------- parsing the feed

  /** Python's `s[lo:hi]`: the characters of `s` from `lo` up to `hi`, clipped to the string. */
  function Slice(s: string, lo: nat, hi: nat): (r: string)
    requires lo <= hi
    ensures |r| <= hi - lo
    ensures |s| >= hi ==> r == s[lo..hi]
  {
    if |s| <= lo then [] else if |s| <= hi then s[lo..] else s[lo..hi]
  }

  /** `int(line1[2:7])`: the catalog number in columns 3 to 7 of element line 1;
      `None` where `int` raises. */
  function CatalogNumber(line1: string): Option<int> {
    ParseInt(Slice(line1, 2, 7))
  }

  /** The lines of the downloaded text: `text.strip().split("\n")`. */
  function FeedLines(text: string): seq<string> {
    Split(Strip(text), '\n')
  }

  /** One group of three feed lines as the parsing loop reads it: the catalog number of its
      line 1 (`None` when `int` raises), its element lines and its name, all stripped. */
  datatype Group = Group(id: Option<int>, entry: TlePair, name: string)

  /** The group that starts at line `i`: the name on line `i`, the elements on the next two. */
  function ReadGroup(lines: seq<string>, i: nat): Group
    requires i + 3 <= |lines|
  {
    var line1 := Strip(lines[i + 1]);
    Group(CatalogNumber(line1), TlePair(line1, Strip(lines[i + 2])), Strip(lines[i]))
  }

  /** The complete groups of `lines`, in order; `range(0, len(lines) - 2, 3)` starts one group
      at each multiple of three that leaves room for two more lines. */
  function Groups(lines: seq<string>): (r: seq<Group>)
    ensures |r| == |lines| / 3
    ensures forall h :: 0 <= h < |r| ==> r[h] == ReadGroup(lines, 3 * h)
  {
    seq(|lines| / 3, h requires 0 <= h < |lines| / 3 => ReadGroup(lines, 3 * h))
  }

  /** The catalog after one more group: a group without a number is skipped; a number seen
      before takes the new lines and name and keeps its place. */
  function AddGroup(c: Catalog, gr: Group): (r: Catalog)
    requires c.Valid()
    ensures r.Valid()
  {
    match gr.id
    case None => c
    case Some(n) => Catalog(Put(c.tles, n, gr.entry), c.names[n := gr.name])
  }

  /** The catalog built from `groups`, read in order. */
  function Fold(groups: seq<Group>): (r: Catalog)
    ensures r.Valid()
  {
    if groups == [] then EmptyCatalog()
    else AddGroup(Fold(groups[..|groups| - 1]), groups[|groups| - 1])
  }

  /** The catalog read from the feed. */
  function ParseFeed(lines: seq<string>): (r: Catalog)
    ensures r.Valid()
  {
    Fold(Groups(lines))
  }

  /** The parsing loop of the catalog refresh. */
  method ParseTles(lines: seq<string>) returns (catalog: Catalog)
    ensures catalog == ParseFeed(lines)
  {
    var tles: Dict<int, TlePair> := EmptyDict();
    var names: map<int, string> := map[];
    ghost var groups := Groups(lines);
    var i := 0;
    ghost var g: nat := 0;
    while i < |lines| - 2
      invariant i == 3 * g <= |lines| && g <= |groups|
      invariant Catalog(tles, names) == Fold(groups[..g])
      decreases |lines| - i
    {
      var group := ReadGroup(lines, i);
      assert groups[g] == group;
      FoldStep(groups, g);
      if group.id.Some? {
        tles := Put(tles, group.id.value, group.entry);
        names := names[group.id.value := group.name];
      }
      i, g := i + 3, g + 1;
    }
    assert groups[..g] == groups;
    catalog := Catalog(tles, names);
  }

  lemma FoldStep(groups: seq<Group>, g: nat)
    requires g < |groups|
    ensures Fold(groups[..g + 1]) == AddGroup(Fold(groups[..g]), groups[g])
  {
    assert groups[..g + 1][..g] == groups[..g];
  }

  /** The catalog holds exactly the numbers that parse among the groups read. */
  lemma FoldKeys(groups: seq<Group>)
    ensures forall id :: id in Fold(groups).tles.entries <==>
      exists h :: 0 <= h < |groups| && groups[h].id == Some(id)
  {
    forall id ensures id in Fold(groups).tles.entries <==> exists h :: 0 <= h < |groups| && groups[h].id == Some(id) {
      FoldKey(groups, id);
    }
  }

  /** The same, for one number. */
  lemma {:induction false} FoldKey(groups: seq<Group>, id: int)
    ensures id in Fold(groups).tles.entries <==> exists h :: 0 <= h < |groups| && groups[h].id == Some(id)
  {
    if groups != [] {
      var init := groups[..|groups| - 1];
      var last := groups[|groups| - 1];
      FoldKey(init, id);
      assert Fold(groups) == AddGroup(Fold(init), last);
      AddGroupKeys(Fold(init), last);
      if exists h :: 0 <= h < |groups| && groups[h].id == Some(id) {
        var h :| 0 <= h < |groups| && groups[h].id == Some(id);
        if h < |init| {
          assert init[h] == groups[h];
        }
      }
      if exists h :: 0 <= h < |init| && init[h].id == Some(id) {
        var h :| 0 <= h < |init| && init[h].id == Some(id);
        assert groups[h] == init[h];
      }
    }
  }

  /** A group adds its own number to the catalog's keys and no other. */
  lemma AddGroupKeys(c: Catalog, gr: Group)
    requires c.Valid()
    ensures forall id :: id in AddGroup(c, gr).tles.entries <==> id in c.tles.entries || gr.id == Some(id)
  {
  }

  /** For each number, the catalog holds the element lines and the name of the last group
      that carries it. */
  lemma {:induction false} FoldLastWins(groups: seq<Group>, h: nat)
    requires h < |groups| && groups[h].id.Some?
    requires forall k :: h < k < |groups| ==> groups[k].id != groups[h].id
    ensures groups[h].id.value in Fold(groups).tles.entries
    ensures Fold(groups).tles.entries[groups[h].id.value] == groups[h].entry
    ensures Fold(groups).names[groups[h].id.value] == groups[h].name
  {
    var init := groups[..|groups| - 1];
    if h < |groups| - 1 {
      assert init[h] == groups[h];
      FoldLastWins(init, h);
    }
  }

  /** One or two trailing lines that do not make a complete group are ignored. */
  lemma ParseFeedIgnoresIncompleteGroup(lines: seq<string>, tail: seq<string>)
    requires |lines| % 3 == 0 && |tail| < 3
    ensures ParseFeed(lines + tail) == ParseFeed(lines)
  {
    var all := lines + tail;
    assert |all| / 3 == |lines| / 3;
    forall h | 0 <= h < |lines| / 3 ensures ReadGroup(all, 3 * h) == ReadGroup(lines, 3 * h) {
      assert all[3 * h] == lines[3 * h];
      assert all[3 * h + 1] == lines[3 * h + 1];
      assert all[3 * h + 2] == lines[3 * h + 2];
    }
    assert Groups(all) == Groups(lines);
  }

  /** A line 1 in the standard layout ("1 ", then the five-digit catalog number) yields that
      number, whatever follows it and whatever white space surrounds the line. */
  lemma ElementLineNumber(n: nat, rest: string, pad: string)
    requires n < 100000
    requires forall i :: 0 <= i < |pad| ==> IsSpace(pad[i])
    ensures CatalogNumber(Strip(pad + "1 " + ZeroPadded(n, 5) + rest)) == Some(n)
  {
    var d := ZeroPadded(n, 5);
    var s := "1 " + d + rest;
    assert pad + "1 " + d + rest == pad + s;
    StandardLine(n, rest);
    StripAfterSpaces(pad, s);
    StripKeepsPrefix(s, 7);
    assert Strip(s)[2..7] == Strip(s)[..7][2..7] == s[..7][2..7] == d;
    ZeroPaddedParses(n, 5);
  }

  /** The layout of a standard line 1: a non-space first character, the number in columns
      3 to 7 and a digit in column 7. */
  lemma StandardLine(n: nat, rest: string)
    requires n < 100000
    ensures var s := "1 " + ZeroPadded(n, 5) + rest;
      && |s| >= 7 && !IsSpace(s[0]) && !IsSpace(s[6]) && s[2..7] == ZeroPadded(n, 5)
  {
    var d := ZeroPadded(n, 5);
    DecimalFits(n, 5);
    var digits := Decimal(n);
    assert d[4] == digits[|digits| - 1];
    var s := "1 " + d + rest;
    assert s[0] == '1' && s[6] == d[4];
    assert s[2..7] == d;
  }

  // ---------------------------------------------------------------- the 24-hour cache

  /** The tracker's cached data: the catalog and when it was downloaded. */
  datatype CacheState = CacheState(catalog: Catalog, updateTime: Option<int>)

  datatype RefreshOutcome =
    | Skipped    // the catalog is fresh: nothing is downloaded
    | Refreshed  // the feed was read and replaced the catalog
    | KeptStale  // the download failed; the old catalog is kept and the error logged
    | Raised     // the download failed and there is no catalog: the exception propagates

  /** Whether a refresh at `now` goes to the network. */
  predicate MustFetch(force: bool, updateTime: Option<int>, now: int) {
    force || updateTime.None? || now - updateTime.value >= CacheLifetime
  }

  /** `update_tles_if_needed(force)` at instant `now`, with `feed` the downloaded text. */
  function Refresh(st: CacheState, force: bool, now: int, feed: Option<string>): (CacheState, RefreshOutcome) {
    if !MustFetch(force, st.updateTime, now) then (st, Skipped)
    else if feed.Some? then (CacheState(ParseFeed(FeedLines(feed.value)), Some(now)), Refreshed)
    else if st.catalog.tles.IsEmpty() then (st, Raised)
    else (st, KeptStale)
  }

  /** What a refresh does, outcome by outcome: it keeps the catalog consistent, skips exactly
      when a download less than 24 hours old exists and the refresh is not forced, changes
      nothing unless the download succeeds, and raises only when it has no catalog to fall
      back on. */
  lemma RefreshOutcomes(st: CacheState, force: bool, now: int, feed: Option<string>)
    requires st.catalog.Valid()
    ensures Refresh(st, force, now, feed).0.catalog.Valid()
    ensures Refresh(st, force, now, feed).1 == Skipped <==>
      !force && st.updateTime.Some? && now - st.updateTime.value < CacheLifetime
    ensures Refresh(st, force, now, feed).1 == Raised <==>
      MustFetch(force, st.updateTime, now) && feed.None? && st.catalog.tles.IsEmpty()
    ensures Refresh(st, force, now, feed).1 == Refreshed <==>
      MustFetch(force, st.updateTime, now) && feed.Some?
    ensures Refresh(st, force, now, feed).1 != Refreshed ==> Refresh(st, force, now, feed).0 == st
    ensures Refresh(st, force, now, feed).1 == Refreshed ==>
      Refresh(st, force, now, feed).0 == CacheState(ParseFeed(FeedLines(feed.value)), Some(now))
  {
  }

  /** After a successful download, every unforced refresh in the following 24 hours is
      skipped, whatever the network would return. */
  lemma RefreshIsCached(st: CacheState, force: bool, now: int, feed: Option<string>,
                        later: int, feed2: Option<string>)
    requires Refresh(st, force, now, feed).1 == Refreshed
    requires now <= later < now + CacheLifetime
    ensures Refresh(Refresh(st, force, now, feed).0, false, later, feed2) == (Refresh(st, force, now, feed).0, Skipped)
  {
  }

  // ---------------------------------------------------------------- visible satellites

  /** One entry of the list of visible satellites. */
  datatype VisibleSatellite = VisibleSatellite(
    noradId: int, name: string, azimuth: real, elevation: real, distanceKm: real, sunlit: bool)

  /** `satellite_names.get(id, f"SAT-{id}")`. */
  function DisplayName(names: map<int, string>, id: int): (r: string)
    ensures id in names ==> r == names[id]
    ensures id !in names ==> r == "SAT-" + IntToString(id)
  {
    if id in names then names[id] else "SAT-" + IntToString(id)
  }

  /** `_is_sunlit`: the shadow test is not implemented; every path answers `True`, and the
      tracker's ephemeris is not loaded by the callers, which also gives `True`. */
  function IsSunlit(): bool {
    true
  }

  /** The entry for satellite `id` at position `p`. */
  function Entry(names: map<int, string>, id: int, p: Topocentric): VisibleSatellite {
    VisibleSatellite(id, DisplayName(names, id), p.azimuth, p.altitude, p.distanceKm, IsSunlit())
  }

  /** Whether satellite `id` is listed: its position can be computed and its elevation is at
      least `minElevation`. */
  predicate IsVisible(c: Catalog, id: int, time: int, minElevation: real, prop: Propagator)
    requires id in c.tles.entries
  {
    var p := prop(c.tles.entries[id], time);
    p.Some? && p.value.altitude >= minElevation
  }

  /** The loop over the catalog: what it appends for the ids in `ids`, in their order. */
  function VisibleList(c: Catalog, ids: seq<int>, time: int, minElevation: real, prop: Propagator): seq<VisibleSatellite>
    requires forall i :: 0 <= i < |ids| ==> ids[i] in c.tles.entries
  {
    if ids == [] then []
    else
      var id := ids[|ids| - 1];
      VisibleList(c, ids[..|ids| - 1], time, minElevation, prop) +
        match prop(c.tles.entries[id], time)
        case Some(p) => if p.altitude >= minElevation then [Entry(c.names, id, p)] else []
        case None => []
  }

  /** The ids among `ids` that pass the visibility test, in their order. */
  function VisibleIds(c: Catalog, ids: seq<int>, time: int, minElevation: real, prop: Propagator): (r: seq<int>)
    requires forall i :: 0 <= i < |ids| ==> ids[i] in c.tles.entries
    ensures forall i :: 0 <= i < |r| ==> r[i] in c.tles.entries && IsVisible(c, r[i], time, minElevation, prop)
  {
    if ids == [] then []
    else
      var id := ids[|ids| - 1];
      VisibleIds(c, ids[..|ids| - 1], time, minElevation, prop) +
        if IsVisible(c, id, time, minElevation, prop) then [id] else []
  }

  /** Which ids are listed: exactly those of `ids` that pass the visibility test. */
  lemma {:induction false} VisibleIdsMembers(c: Catalog, ids: seq<int>, time: int, minElevation: real, prop: Propagator)
    requires forall i :: 0 <= i < |ids| ==> ids[i] in c.tles.entries
    ensures forall id :: id in VisibleIds(c, ids, time, minElevation, prop) <==>
      id in ids && IsVisible(c, id, time, minElevation, prop)
  {
    if ids != [] {
      var init := ids[..|ids| - 1];
      VisibleIdsMembers(c, init, time, minElevation, prop);
      assert ids == init + [ids[|ids| - 1]];
    }
  }

  /** The list is the visible ids, each turned into its entry: the catalog number, the name
      (or `SAT-<number>`), the computed position, elevation at least the minimum, and sunlit. */
  lemma {:induction false} VisibleListEntries(c: Catalog, ids: seq<int>, time: int, minElevation: real, prop: Propagator)
    requires forall i :: 0 <= i < |ids| ==> ids[i] in c.tles.entries
    ensures |VisibleList(c, ids, time, minElevation, prop)| == |VisibleIds(c, ids, time, minElevation, prop)|
    ensures forall j :: 0 <= j < |VisibleList(c, ids, time, minElevation, prop)| ==>
      var e := VisibleList(c, ids, time, minElevation, prop)[j];
      && e.noradId == VisibleIds(c, ids, time, minElevation, prop)[j]
      && e.noradId in c.tles.entries
      && prop(c.tles.entries[e.noradId], time) == Some(Topocentric(e.elevation, e.azimuth, e.distanceKm))
      && e.elevation >= minElevation
      && e.name == DisplayName(c.names, e.noradId)
      && e.sunlit
  {
    if ids != [] {
      VisibleListEntries(c, ids[..|ids| - 1], time, minElevation, prop);
    }
  }

  /** The position loop of `get_visible_satellites` over the whole catalog, in catalog order. */
  method ScanVisible(c: Catalog, time: int, minElevation: real, prop: Propagator)
    returns (visible: seq<VisibleSatellite>)
    requires c.Valid()
    ensures forall i :: 0 <= i < |c.tles.keys| ==> c.tles.keys[i] in c.tles.entries
    ensures visible == VisibleList(c, c.tles.keys, time, minElevation, prop)
  {
    var ids := c.tles.keys;
    visible := [];
    var i := 0;
    while i < |ids|
      invariant 0 <= i <= |ids|
      invariant visible == VisibleList(c, ids[..i], time, minElevation, prop)
    {
      assert ids[..i + 1][..i] == ids[..i];
      var p := prop(c.tles.entries[ids[i]], time);
      if p.Some? && p.value.altitude >= minElevation {
        visible := visible + [Entry(c.names, ids[i], p.value)];
      }
      i := i + 1;
    }
    assert ids[..i] == ids;
  }

  // ---------------------------------------------------------------- next pass

  /** A pass: rise, set and culmination instants in seconds, peak elevation in degrees. */
  datatype SatellitePass = SatellitePass(
    noradId: int, name: string, riseTime: int, setTime: int,
    maxElevation: real, maxElevationTime: int, durationMinutes: int)

  predicate Above(prop: Propagator, tle: TlePair, t: int) {
    prop(tle, t).Some? && prop(tle, t).value.altitude > 0.0
  }

  predicate AtOrBelow(prop: Propagator, tle: TlePair, t: int) {
    prop(tle, t).Some? && prop(tle, t).value.altitude <= 0.0
  }

  predicate AltitudeIs(prop: Propagator, tle: TlePair, t: int, alt: real) {
    prop(tle, t).Some? && prop(tle, t).value.altitude == alt
  }

  predicate AltitudeAtMost(prop: Propagator, tle: TlePair, t: int, alt: real) {
    prop(tle, t).Some? && prop(tle, t).value.altitude <= alt
  }

  predicate AltitudeBelow(prop: Propagator, tle: TlePair, t: int, alt: real) {
    prop(tle, t).Some? && prop(tle, t).value.altitude < alt
  }

  /** The set search: from instant `s`, where the elevation is `alt`, step a minute at a time
      while the satellite is up and the end of the window `t1` is not reached. */
  function SetFrom(tle: TlePair, s: int, alt: real, t1: int, prop: Propagator): Option<int>
    decreases t1 - s
  {
    if alt > 0.0 && s < t1 then
      match prop(tle, s + FineStep)
      case None => None
      case Some(p) => SetFrom(tle, s + FineStep, p.altitude, t1, prop)
    else Some(s)
  }

  /** The peak search: minute samples from `c` up to (not including) `down`; a sample replaces
      the best so far (`maxAlt` at `maxTime`) only when strictly higher. */
  function PeakFrom(tle: TlePair, c: int, down: int, maxAlt: real, maxTime: int, prop: Propagator): Option<(real, int)>
    decreases down - c
  {
    if c < down then
      match prop(tle, c)
      case None => None
      case Some(p) =>
        if p.altitude > maxAlt then PeakFrom(tle, c + FineStep, down, p.altitude, c, prop)
        else PeakFrom(tle, c + FineStep, down, maxAlt, maxTime, prop)
    else Some((maxAlt, maxTime))
  }

  /** The pass that rises at `rise` with elevation `alt`. */
  function PassAt(id: int, name: string, tle: TlePair, rise: int, alt: real, t1: int, prop: Propagator): Option<SatellitePass> {
    match SetFrom(tle, rise, alt, t1, prop)
    case None => None
    case Some(down) =>
      match PeakFrom(tle, rise, down, 0.0, rise, prop)
      case None => None
      case Some(peak) => Some(SatellitePass(id, name, rise, down, peak.0, peak.1, (down - rise) / 60))
  }

  /** The rise search: 0.1-hour samples from `current` until the satellite is up or `t1`. */
  function PassFrom(id: int, name: string, tle: TlePair, current: int, t1: int, prop: Propagator): Option<SatellitePass>
    decreases t1 - current
  {
    if current < t1 then
      match prop(tle, current)
      case None => None
      case Some(p) =>
        if p.altitude > 0.0 then PassAt(id, name, tle, current, p.altitude, t1, prop)
        else PassFrom(id, name, tle, current + CoarseStep, t1, prop)
    else None
  }

  /** The next pass within `maxHours` hours of `start`, or `None`. */
  function NextPass(id: int, name: string, tle: TlePair, start: int, maxHours: int, prop: Propagator): Option<SatellitePass> {
    PassFrom(id, name, tle, start, start + maxHours * 3600, prop)
  }

  /** The search loops of `get_next_pass`. */
  method SearchPass(id: int, name: string, tle: TlePair, start: int, maxHours: int, prop: Propagator)
    returns (pass: Option<SatellitePass>)
    ensures pass == NextPass(id, name, tle, start, maxHours, prop)
  {
    var t1 := start + maxHours * 3600;
    var current := start;
    while current < t1
      invariant PassFrom(id, name, tle, current, t1, prop) == NextPass(id, name, tle, start, maxHours, prop)
      decreases t1 - current
    {
      var sample := prop(tle, current);
      if sample.None? {
        return None;
      }
      var alt := sample.value.altitude;
      if alt > 0.0 {
        var rise := current;
        var setTime := current;
        var setAlt := alt;
        while setAlt > 0.0 && setTime < t1
          invariant SetFrom(tle, setTime, setAlt, t1, prop) == SetFrom(tle, rise, alt, t1, prop)
          decreases t1 - setTime
        {
          setTime := setTime + FineStep;
          var next := prop(tle, setTime);
          if next.None? {
            return None;
          }
          setAlt := next.value.altitude;
        }
        var maxAlt := 0.0;
        var maxTime := rise;
        var check := rise;
        while check < setTime
          invariant PeakFrom(tle, check, setTime, maxAlt, maxTime, prop) == PeakFrom(tle, rise, setTime, 0.0, rise, prop)
          decreases setTime - check
        {
          var at := prop(tle, check);
          if at.None? {
            return None;
          }
          if at.value.altitude > maxAlt {
            maxAlt := at.value.altitude;
            maxTime := check;
          }
          check := check + FineStep;
        }
        return Some(SatellitePass(id, name, rise, setTime, maxAlt, maxTime, (setTime - rise) / 60));
      }
      current := current + CoarseStep;
    }
    return None;
  }

  /** Where the set search stops: a whole number of minutes after `s`, not beyond a
      minute-aligned `t1`, every minute sample before it up, and at it the satellite down
      unless the window ended. */
  lemma {:induction false} SetFromFacts(tle: TlePair, s: int, alt: real, t1: int, prop: Propagator)
    requires SetFrom(tle, s, alt, t1, prop).Some?
    ensures var down := SetFrom(tle, s, alt, t1, prop).value;
      && s <= down && (down - s) % FineStep == 0
      && (alt > 0.0 && s < t1 ==> s < down)
      && (s <= t1 && (t1 - s) % FineStep == 0 ==> down <= t1)
      && (forall t :: s < t < down && (t - s) % FineStep == 0 ==> Above(prop, tle, t))
      && (s < down && down < t1 ==> AtOrBelow(prop, tle, down))
    decreases t1 - s
  {
    if alt > 0.0 && s < t1 {
      var p := prop(tle, s + FineStep).value;
      SetFromFacts(tle, s + FineStep, p.altitude, t1, prop);
      var down := SetFrom(tle, s, alt, t1, prop).value;
      forall t | s < t < down && (t - s) % FineStep == 0 ensures Above(prop, tle, t) {
        if t > s + FineStep {
          assert (t - (s + FineStep)) % FineStep == 0;
        }
      }
    }
  }

  /** What the peak search finds: a value no lower than the starting best, taken either from
      the start or at a sample strictly higher than it; no sample is higher, and every sample
      before the one chosen is strictly lower (the earliest maximum wins). */
  lemma {:induction false} PeakFromFacts(tle: TlePair, c: int, down: int, m: real, mt: int, prop: Propagator)
    requires mt <= c
    requires PeakFrom(tle, c, down, m, mt, prop).Some?
    ensures var (mx, mxt) := PeakFrom(tle, c, down, m, mt, prop).value;
      && m <= mx
      && ((mx == m && mxt == mt) || (c <= mxt < down && (mxt - c) % FineStep == 0 && m < mx && AltitudeIs(prop, tle, mxt, mx)))
      && (forall t :: c <= t < down && (t - c) % FineStep == 0 ==> AltitudeAtMost(prop, tle, t, mx))
      && (forall t :: c <= t < mxt && (t - c) % FineStep == 0 ==> AltitudeBelow(prop, tle, t, mx))
    decreases down - c
  {
    if c < down {
      var p := prop(tle, c).value;
      var (m', mt') := if p.altitude > m then (p.altitude, c) else (m, mt);
      PeakFromFacts(tle, c + FineStep, down, m', mt', prop);
      var (mx, mxt) := PeakFrom(tle, c, down, m, mt, prop).value;
      assert (mx, mxt) == PeakFrom(tle, c + FineStep, down, m', mt', prop).value;
      forall t | c < t < down && (t - c) % FineStep == 0 ensures AltitudeAtMost(prop, tle, t, mx) {
        assert (t - (c + FineStep)) % FineStep == 0;
      }
      forall t | c < t < mxt && (t - c) % FineStep == 0 ensures AltitudeBelow(prop, tle, t, mx) {
        assert (t - (c + FineStep)) % FineStep == 0;
      }
    }
  }

  /** The rise search returns the first 0.1-hour sample at which the satellite is up, and the
      pass that starts there. */
  lemma {:induction false} PassFromFacts(id: int, name: string, tle: TlePair, cur: int, t1: int, prop: Propagator)
    requires PassFrom(id, name, tle, cur, t1, prop).Some?
    ensures var p := PassFrom(id, name, tle, cur, t1, prop).value;
      && cur <= p.riseTime < t1 && (p.riseTime - cur) % CoarseStep == 0
      && (forall t :: cur <= t < p.riseTime && (t - cur) % CoarseStep == 0 ==> AtOrBelow(prop, tle, t))
      && Above(prop, tle, p.riseTime)
      && PassAt(id, name, tle, p.riseTime, prop(tle, p.riseTime).value.altitude, t1, prop) == Some(p)
    decreases t1 - cur
  {
    var q := prop(tle, cur).value;
    if q.altitude <= 0.0 {
      PassFromFacts(id, name, tle, cur + CoarseStep, t1, prop);
      var p := PassFrom(id, name, tle, cur, t1, prop).value;
      forall t | cur <= t < p.riseTime && (t - cur) % CoarseStep == 0 ensures AtOrBelow(prop, tle, t) {
        if t > cur {
          assert (t - (cur + CoarseStep)) % CoarseStep == 0;
        }
      }
    }
  }

  /** The shape of a pass found from a rise at `rise`: it sets after it rises, no later than
      the end of the window, stays up at every minute in between, is down at the set instant
      unless the window ended, and peaks at the earliest highest minute sample of the pass;
      its duration is the whole number of minutes between rise and set. */
  lemma PassAtFacts(id: int, name: string, tle: TlePair, rise: int, alt: real, t1: int, prop: Propagator)
    requires PassAt(id, name, tle, rise, alt, t1, prop).Some? && AltitudeIs(prop, tle, rise, alt)
    requires 0.0 < alt && rise < t1 && (t1 - rise) % FineStep == 0
    ensures var p := PassAt(id, name, tle, rise, alt, t1, prop).value;
      && p.noradId == id && p.name == name && p.riseTime == rise
      && rise < p.setTime <= t1 && (p.setTime - rise) % FineStep == 0
      && (forall t :: rise < t < p.setTime && (t - rise) % FineStep == 0 ==> Above(prop, tle, t))
      && (p.setTime < t1 ==> AtOrBelow(prop, tle, p.setTime))
      && rise <= p.maxElevationTime < p.setTime && (p.maxElevationTime - rise) % FineStep == 0
      && 0.0 < p.maxElevation && AltitudeIs(prop, tle, p.maxElevationTime, p.maxElevation)
      && (forall t :: rise <= t < p.setTime && (t - rise) % FineStep == 0 ==> AltitudeAtMost(prop, tle, t, p.maxElevation))
      && (forall t :: rise <= t < p.maxElevationTime && (t - rise) % FineStep == 0 ==> AltitudeBelow(prop, tle, t, p.maxElevation))
      && p.durationMinutes * 60 == p.setTime - rise
  {
    SetFromFacts(tle, rise, alt, t1, prop);
    var down := SetFrom(tle, rise, alt, t1, prop).value;
    PeakFromFacts(tle, rise, down, 0.0, rise, prop);
    assert AltitudeAtMost(prop, tle, rise, PeakFrom(tle, rise, down, 0.0, rise, prop).value.0);
  }

  /** A 0.1-hour sample of the window lies a whole number of minutes before its end. */
  lemma WindowAligned(start: int, maxHours: int, r: int)
    requires (r - start) % CoarseStep == 0
    ensures (start + maxHours * 3600 - r) % FineStep == 0
  {
    var k := (r - start) / CoarseStep;
    assert r - start == CoarseStep * k;
    assert start + maxHours * 3600 - r == FineStep * (maxHours * 60 - 6 * k);
  }

  /** The next pass within `maxHours` hours of `start`: it rises at the first 0.1-hour sample
      at which the satellite is above the horizon, and has the shape `PassAtFacts` gives. */
  lemma NextPassShape(id: int, name: string, tle: TlePair, start: int, maxHours: int, prop: Propagator)
    requires NextPass(id, name, tle, start, maxHours, prop).Some?
    ensures var p := NextPass(id, name, tle, start, maxHours, prop).value;
      var t1 := start + maxHours * 3600;
      && p.noradId == id && p.name == name
      && start <= p.riseTime < t1 && (p.riseTime - start) % CoarseStep == 0
      && Above(prop, tle, p.riseTime)
      && (forall t :: start <= t < p.riseTime && (t - start) % CoarseStep == 0 ==> AtOrBelow(prop, tle, t))
      && p.riseTime < p.setTime <= t1
      && (forall t :: p.riseTime < t < p.setTime && (t - p.riseTime) % FineStep == 0 ==> Above(prop, tle, t))
      && (p.setTime < t1 ==> AtOrBelow(prop, tle, p.setTime))
      && p.riseTime <= p.maxElevationTime < p.setTime
      && 0.0 < p.maxElevation && AltitudeIs(prop, tle, p.maxElevationTime, p.maxElevation)
      && (forall t :: p.riseTime <= t < p.setTime && (t - p.riseTime) % FineStep == 0 ==> AltitudeAtMost(prop, tle, t, p.maxElevation))
      && p.durationMinutes * 60 == p.setTime - p.riseTime
  {
    var t1 := start + maxHours * 3600;
    PassFromFacts(id, name, tle, start, t1, prop);
    var p := NextPass(id, name, tle, start, maxHours, prop).value;
    WindowAligned(start, maxHours, p.riseTime);
    PassAtFacts(id, name, tle, p.riseTime, prop(tle, p.riseTime).value.altitude, t1, prop);
  }

  /** A satellite that is down at every 0.1-hour sample of the window has no pass in it. */
  lemma {:induction false} NoPassWhenAlwaysDown(id: int, name: string, tle: TlePair, cur: int, t1: int, prop: Propagator)
    requires forall t :: cur <= t < t1 && (t - cur) % CoarseStep == 0 ==> AtOrBelow(prop, tle, t)
    ensures PassFrom(id, name, tle, cur, t1, prop) == None
    decreases t1 - cur
  {
    if cur < t1 {
      assert AtOrBelow(prop, tle, cur);
      forall t | cur + CoarseStep <= t < t1 && (t - (cur + CoarseStep)) % CoarseStep == 0
        ensures AtOrBelow(prop, tle, t)
      {
        assert (t - cur) % CoarseStep == 0;
      }
      NoPassWhenAlwaysDown(id, name, tle, cur + CoarseStep, t1, prop);
    }
  }

  /** When the position can always be computed, a pass is found as soon as some 0.1-hour
      sample of the window has the satellite up. */
  lemma {:induction false} PassWhenSomeSampleUp(id: int, name: string, tle: TlePair, cur: int, t1: int, prop: Propagator, up: int)
    requires forall t :: prop(tle, t).Some?
    requires cur <= up < t1 && (up - cur) % CoarseStep == 0 && Above(prop, tle, up)
    ensures PassFrom(id, name, tle, cur, t1, prop).Some?
    decreases t1 - cur
  {
    var q := prop(tle, cur).value;
    if q.altitude > 0.0 {
      SetFromTotal(tle, cur, q.altitude, t1, prop);
      var down := SetFrom(tle, cur, q.altitude, t1, prop).value;
      PeakFromTotal(tle, cur, down, 0.0, cur, prop);
    } else {
      assert up != cur;
      assert (up - (cur + CoarseStep)) % CoarseStep == 0;
      PassWhenSomeSampleUp(id, name, tle, cur + CoarseStep, t1, prop, up);
    }
  }

  lemma {:induction false} SetFromTotal(tle: TlePair, s: int, alt: real, t1: int, prop: Propagator)
    requires forall t :: prop(tle, t).Some?
    ensures SetFrom(tle, s, alt, t1, prop).Some?
    decreases t1 - s
  {
    if alt > 0.0 && s < t1 {
      SetFromTotal(tle, s + FineStep, prop(tle, s + FineStep).value.altitude, t1, prop);
    }
  }

  lemma {:induction false} PeakFromTotal(tle: TlePair, c: int, down: int, m: real, mt: int, prop: Propagator)
    requires forall t :: prop(tle, t).Some?
    ensures PeakFrom(tle, c, down, m, mt, prop).Some?
    decreases down - c
  {
    if c < down {
      var p := prop(tle, c).value;
      if p.altitude > m {
        PeakFromTotal(tle, c + FineStep, down, p.altitude, c, prop);
      } else {
        PeakFromTotal(tle, c + FineStep, down, m, mt, prop);
      }
    }
  }

  // ---------------------------------------------------------------- the queries

  /** `get_visible_satellites(time, min_elevation)` on cache `st`: with no catalog, first an
      unforced refresh at `now` (whose exception propagates); then the visible satellites in
      catalog order. */
  function VisibleQuery(st: CacheState, time: int, minElevation: real, now: int, feed: Option<string>,
                        prop: Propagator): (CacheState, Result<seq<VisibleSatellite>>)
    requires st.catalog.Valid()
  {
    var (st1, outcome) := if st.catalog.tles.IsEmpty() then Refresh(st, false, now, feed) else (st, Skipped);
    RefreshOutcomes(st, false, now, feed);
    if outcome == Raised then (st1, Err(NetworkError))
    else (st1, Ok(VisibleList(st1.catalog, st1.catalog.tles.keys, time, minElevation, prop)))
  }

  /** `get_next_pass(norad_id, start_time, max_hours)` on cache `st`: a satellite missing from
      the catalog triggers an unforced refresh at `now` (whose exception propagates); a
      satellite still missing has no pass; otherwise the pass search. */
  function PassQuery(st: CacheState, noradId: int, start: int, maxHours: int, now: int, feed: Option<string>,
                     prop: Propagator): (CacheState, Result<Option<SatellitePass>>)
  {
    var (st1, outcome) :=
      if noradId in st.catalog.tles.entries then (st, Skipped) else Refresh(st, false, now, feed);
    var c := st1.catalog;
    if outcome == Raised then (st1, Err(NetworkError))
    else if noradId !in c.tles.entries then (st1, Ok(None))
    else (st1, Ok(NextPass(noradId, DisplayName(c.names, noradId), c.tles.entries[noradId], start, maxHours, prop)))
  }

  /** The listing query refreshes only an empty catalog, fails only when that refresh raises,
      and otherwise lists exactly the visible satellites of the (possibly refreshed) catalog. */
  lemma VisibleQueryFacts(st: CacheState, time: int, minElevation: real, now: int, feed: Option<string>,
                          prop: Propagator)
    requires st.catalog.Valid()
    ensures var (st1, r) := VisibleQuery(st, time, minElevation, now, feed, prop);
      && st1.catalog.Valid()
      && (!st.catalog.tles.IsEmpty() ==> st1 == st && r.Ok?)
      && (r.Err? <==> st.catalog.tles.IsEmpty() && Refresh(st, false, now, feed).1 == Raised)
      && (r.Ok? ==> forall id :: id in VisibleIds(st1.catalog, st1.catalog.tles.keys, time, minElevation, prop) <==>
            id in st1.catalog.tles.entries && IsVisible(st1.catalog, id, time, minElevation, prop))
      && (r.Ok? ==> |r.value| == |VisibleIds(st1.catalog, st1.catalog.tles.keys, time, minElevation, prop)|)
  {
    RefreshOutcomes(st, false, now, feed);
    var (st1, r) := VisibleQuery(st, time, minElevation, now, feed, prop);
    if r.Ok? {
      VisibleIdsMembers(st1.catalog, st1.catalog.tles.keys, time, minElevation, prop);
      VisibleListEntries(st1.catalog, st1.catalog.tles.keys, time, minElevation, prop);
    }
  }

  /** A refresh that did not raise leaves a cache on which a second unforced refresh at the
      same instant cannot raise, and downloads again only after a failed download. */
  lemma RefreshSettles(st: CacheState, now: int, feed: Option<string>, feed2: Option<string>)
    requires Refresh(st, false, now, feed).1 != Raised
    ensures var st1 := Refresh(st, false, now, feed).0;
      && Refresh(st1, false, now, feed2).1 != Raised
      && (Refresh(st, false, now, feed).1 != KeptStale ==> Refresh(st1, false, now, feed2) == (st1, Skipped))
  {
  }

  // ---------------------------------------------------------------- the tracker object

  class Tracker {
    const latitude: real
    const longitude: real
    const elevation: real
    var tles: Dict<int, TlePair>
    var satelliteNames: map<int, string>
    var tleUpdateTime: Option<int>

    ghost predicate Valid()
      reads this
    {
      Catalog(tles, satelliteNames).Valid()
    }

    function State(): CacheState
      reads this
    {
      CacheState(Catalog(tles, satelliteNames), tleUpdateTime)
    }

    /** A tracker for the observer at this latitude, longitude and elevation, with no catalog. */
    constructor (latitude: real, longitude: real, elevation: real)
      ensures Valid()
      ensures this.latitude == latitude && this.longitude == longitude && this.elevation == elevation
      ensures tles.IsEmpty() && satelliteNames == map[] && tleUpdateTime == None
    {
      this.latitude := latitude;
      this.longitude := longitude;
      this.elevation := elevation;
      tles := EmptyDict();
      satelliteNames := map[];
      tleUpdateTime := None;
    }

    /** `update_tles_if_needed(force)` at instant `now`; `feed` is the downloaded text, or `None`
        when the request failed. */
    method UpdateTlesIfNeeded(force: bool, now: int, feed: Option<string>) returns (outcome: RefreshOutcome)
      requires Valid()
      modifies this
      ensures Valid()
      ensures (State(), outcome) == Refresh(old(State()), force, now, feed)
    {
      if !MustFetch(force, tleUpdateTime, now) {
        return Skipped;
      }
      if feed.None? {
        outcome := if tles.IsEmpty() then Raised else KeptStale;
        return;
      }
      var catalog := ParseTles(FeedLines(feed.value));
      tles, satelliteNames, tleUpdateTime := catalog.tles, catalog.names, Some(now);
      outcome := Refreshed;
    }

    /** `get_visible_satellites(time, min_elevation)`; `feed` is what a refresh would download. */
    method GetVisibleSatellites(time: int, minElevation: real, now: int, feed: Option<string>, prop: Propagator)
      returns (r: Result<seq<VisibleSatellite>>)
      requires Valid()
      modifies this
      ensures Valid()
      ensures (State(), r) == VisibleQuery(old(State()), time, minElevation, now, feed, prop)
    {
      if tles.IsEmpty() {
        var outcome := UpdateTlesIfNeeded(false, now, feed);
        if outcome == Raised {
          return Err(NetworkError);
        }
      }
      var visible := ScanVisible(Catalog(tles, satelliteNames), time, minElevation, prop);
      return Ok(visible);
    }

    /** `get_next_pass(norad_id, start_time, max_hours)`; `feed` is what a refresh would
        download. A propagation error inside the search gives `None`. */
    method GetNextPass(noradId: int, start: int, maxHours: int, now: int, feed: Option<string>, prop: Propagator)
      returns (r: Result<Option<SatellitePass>>)
      requires Valid()
      modifies this
      ensures Valid()
      ensures (State(), r) == PassQuery(old(State()), noradId, start, maxHours, now, feed, prop)
    {
      if noradId !in tles.entries {
        var outcome := UpdateTlesIfNeeded(false, now, feed);
        if outcome == Raised {
          return Err(NetworkError);
        }
      }
      if noradId !in tles.entries {
        return Ok(None);
      }
      var pass := SearchPass(noradId, DisplayName(satelliteNames, noradId), tles.entries[noradId], start, maxHours, prop);
      return Ok(pass);
    }
  }
}
