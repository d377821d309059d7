/** The satellite coordinator's update: an unforced catalog refresh, the satellites above the
    horizon now, the International Space Station among them, and its next pass in the coming
    24 hours.

    The three downloads a refresh may make during one update are parameters (`None` for a
    failed request), as is the propagator. `now` is the single clock reading of the update. */
module SatelliteCoordinator {
  import opened Wrappers
  import opened SatelliteTracker

  /** The NORAD catalog number of the International Space Station. */
  const IssNoradId: int := 25544

  /** The default horizon of `get_next_pass`, in hours. */
  const PassHorizonHours: int := 24

  /** What an update publishes. */
  datatype SatelliteData = SatelliteData(
    satellitesOverhead: nat,
    satellites: seq<VisibleSatellite>,
    issOverhead: bool,
    issData: Option<VisibleSatellite>,
    nextPass: Option<SatellitePass>,
    lastUpdate: int)

  /** The first entry of `sats` with catalog number `id`, if any. */
  function FirstWithId(sats: seq<VisibleSatellite>, id: int): (r: Option<VisibleSatellite>)
    ensures r.None? <==> forall k :: 0 <= k < |sats| ==> sats[k].noradId != id
    ensures r.Some? ==> r.value in sats && r.value.noradId == id
  {
    if sats == [] then None
    else if sats[0].noradId == id then Some(sats[0])
    else FirstWithId(sats[1..], id)
  }

  /** The entry found is the earliest one with that number. */
  lemma {:induction false} FirstWithIdIsFirst(sats: seq<VisibleSatellite>, id: int, k: nat)
    requires k < |sats| && sats[k].noradId == id
    requires forall j :: 0 <= j < k ==> sats[j].noradId != id
    ensures FirstWithId(sats, id) == Some(sats[k])
  {
    if k > 0 {
      FirstWithIdIsFirst(sats[1..], id, k - 1);
    }
  }

  /** The loop that looks for the space station in the visible list and stops at the first hit. */
  method FindIss(satellites: seq<VisibleSatellite>) returns (issData: Option<VisibleSatellite>)
    ensures issData == FirstWithId(satellites, IssNoradId)
  {
    issData := None;
    var i := 0;
    while i < |satellites|
      invariant 0 <= i <= |satellites|
      invariant issData == None
      invariant forall j :: 0 <= j < i ==> satellites[j].noradId != IssNoradId
    {
      if satellites[i].noradId == IssNoradId {
        issData := Some(satellites[i]);
        FirstWithIdIsFirst(satellites, IssNoradId, i);
        return;
      }
      i := i + 1;
    }
  }

  /** `_async_update_data` on cache `st` at instant `now`: the cache afterwards, and the
      published data or the error that becomes `UpdateFailed`. `updateFeed`, `visibleFeed` and
      `passFeed` answer the downloads of the explicit refresh, of the listing and of the pass
      search. */
  function SatelliteUpdate(st: CacheState, now: int, updateFeed: Option<string>, visibleFeed: Option<string>,
                           passFeed: Option<string>, prop: Propagator): (CacheState, Result<SatelliteData>)
    requires st.catalog.Valid()
  {
    var (st1, outcome) := Refresh(st, false, now, updateFeed);
    RefreshOutcomes(st, false, now, updateFeed);
    if outcome == Raised then (st1, Err(NetworkError))
    else
      var (st2, visible) := VisibleQuery(st1, now, 0.0, now, visibleFeed, prop);
      if visible.Err? then (st2, Err(visible.error))
      else
        var (st3, pass) := PassQuery(st2, IssNoradId, now, PassHorizonHours, now, passFeed, prop);
        if pass.Err? then (st3, Err(pass.error))
        else
          var sats := visible.value;
          var iss := FirstWithId(sats, IssNoradId);
          (st3, Ok(SatelliteData(|sats|, sats, iss.Some?, iss, pass.value, now)))
  }

  /** What an update publishes: it fails exactly when its own refresh raises; otherwise the
      count is the length of the list, the list is the visible satellites (minimum elevation 0)
      of the catalog that refresh left, the station is reported overhead exactly when its entry
      is found, which happens exactly when the station is in that catalog and visible. */
  lemma SatelliteUpdateFacts(st: CacheState, now: int, updateFeed: Option<string>, visibleFeed: Option<string>,
                             passFeed: Option<string>, prop: Propagator)
    requires st.catalog.Valid()
    ensures var (st3, r) := SatelliteUpdate(st, now, updateFeed, visibleFeed, passFeed, prop);
      var c1 := Refresh(st, false, now, updateFeed).0.catalog;
      && st3.catalog.Valid()
      && (r.Err? <==> Refresh(st, false, now, updateFeed).1 == Raised)
      && (r.Ok? ==>
        && r.value.satellitesOverhead == |r.value.satellites|
        && r.value.satellites == VisibleList(c1, c1.tles.keys, now, 0.0, prop)
        && (r.value.issOverhead <==> r.value.issData.Some?)
        && r.value.issData == FirstWithId(r.value.satellites, IssNoradId)
        && (r.value.issOverhead <==> IssNoradId in c1.tles.entries && IsVisible(c1, IssNoradId, now, 0.0, prop))
        && r.value.lastUpdate == now)
  {
    RefreshOutcomes(st, false, now, updateFeed);
    var st1 := Refresh(st, false, now, updateFeed).0;
    if Refresh(st, false, now, updateFeed).1 != Raised {
      SatelliteUpdateOk(st, now, updateFeed, visibleFeed, passFeed, prop);
      RefreshOutcomes(st1, false, now, passFeed);
      IssOverheadIffVisible(st1.catalog, now, prop);
    }
  }

  /** When the update's refresh does not raise, the listing works on the catalog that refresh
      left without changing it, and neither the listing nor the pass search fails. */
  lemma SatelliteUpdateOk(st: CacheState, now: int, updateFeed: Option<string>, visibleFeed: Option<string>,
                          passFeed: Option<string>, prop: Propagator)
    requires st.catalog.Valid()
    requires Refresh(st, false, now, updateFeed).1 != Raised
    ensures Refresh(st, false, now, updateFeed).0.catalog.Valid()
    ensures var st1 := Refresh(st, false, now, updateFeed).0;
      var sats := VisibleList(st1.catalog, st1.catalog.tles.keys, now, 0.0, prop);
      var iss := FirstWithId(sats, IssNoradId);
      var (st3, pass) := PassQuery(st1, IssNoradId, now, PassHorizonHours, now, passFeed, prop);
      && pass.Ok?
      && SatelliteUpdate(st, now, updateFeed, visibleFeed, passFeed, prop) ==
        (st3, Ok(SatelliteData(|sats|, sats, iss.Some?, iss, pass.value, now)))
  {
    RefreshOutcomes(st, false, now, updateFeed);
    var st1 := Refresh(st, false, now, updateFeed).0;
    VisibleQueryFacts(st1, now, 0.0, now, visibleFeed, prop);
    if st1.catalog.tles.IsEmpty() {
      RefreshSettles(st, now, updateFeed, visibleFeed);
    }
    RefreshOutcomes(st1, false, now, passFeed);
    if IssNoradId !in st1.catalog.tles.entries {
      RefreshSettles(st, now, updateFeed, passFeed);
    }
  }

  /** The station has an entry in the list exactly when it is in the catalog and visible. */
  lemma IssOverheadIffVisible(c: Catalog, now: int, prop: Propagator)
    requires c.Valid()
    ensures forall i :: 0 <= i < |c.tles.keys| ==> c.tles.keys[i] in c.tles.entries
    ensures FirstWithId(VisibleList(c, c.tles.keys, now, 0.0, prop), IssNoradId).Some? <==>
      IssNoradId in c.tles.entries && IsVisible(c, IssNoradId, now, 0.0, prop)
  {
    var sats := VisibleList(c, c.tles.keys, now, 0.0, prop);
    var ids := VisibleIds(c, c.tles.keys, now, 0.0, prop);
    VisibleListEntries(c, c.tles.keys, now, 0.0, prop);
    VisibleIdsMembers(c, c.tles.keys, now, 0.0, prop);
    if FirstWithId(sats, IssNoradId).Some? {
      var k :| 0 <= k < |sats| && sats[k].noradId == IssNoradId;
      assert ids[k] == IssNoradId;
    }
  }

  /** When the station is in the catalog after the update's refresh, the published next pass
      is its pass search from `now`, and the cache is the one that refresh left. */
  lemma SatelliteUpdatePass(st: CacheState, now: int, updateFeed: Option<string>, visibleFeed: Option<string>,
                            passFeed: Option<string>, prop: Propagator)
    requires st.catalog.Valid()
    requires Refresh(st, false, now, updateFeed).1 != Raised
    requires IssNoradId in Refresh(st, false, now, updateFeed).0.catalog.tles.entries
    ensures var (st3, r) := SatelliteUpdate(st, now, updateFeed, visibleFeed, passFeed, prop);
      var c1 := Refresh(st, false, now, updateFeed).0.catalog;
      && st3 == Refresh(st, false, now, updateFeed).0
      && r.Ok?
      && r.value.nextPass == NextPass(IssNoradId, DisplayName(c1.names, IssNoradId), c1.tles.entries[IssNoradId],
                                      now, PassHorizonHours, prop)
  {
    RefreshOutcomes(st, false, now, updateFeed);
    var st1 := Refresh(st, false, now, updateFeed).0;
    VisibleQueryFacts(st1, now, 0.0, now, visibleFeed, prop);
  }

  class SatelliteCoordinator {
    const tracker: Tracker

    /** A coordinator with a fresh tracker for the observer at `latitude`, `longitude`
        (elevation 0). */
    constructor (latitude: real, longitude: real)
      ensures fresh(tracker) && tracker.Valid()
      ensures tracker.latitude == latitude && tracker.longitude == longitude && tracker.elevation == 0.0
      ensures tracker.State() == CacheState(EmptyCatalog(), None)
    {
      tracker := new Tracker(latitude, longitude, 0.0);
    }

    /** `_async_update_data` at instant `now`. */
    method Update(now: int, updateFeed: Option<string>, visibleFeed: Option<string>, passFeed: Option<string>,
                  prop: Propagator) returns (r: Result<SatelliteData>)
      requires tracker.Valid()
      modifies tracker
      ensures tracker.Valid()
      ensures (tracker.State(), r) == SatelliteUpdate(old(tracker.State()), now, updateFeed, visibleFeed, passFeed, prop)
    {
      var outcome := tracker.UpdateTlesIfNeeded(false, now, updateFeed);
      if outcome == Raised {
        return Err(NetworkError);
      }
      var visible := tracker.GetVisibleSatellites(now, 0.0, now, visibleFeed, prop);
      if visible.Err? {
        return Err(visible.error);
      }
      var satellites := visible.value;
      var issData := FindIss(satellites);
      var nextPass := tracker.GetNextPass(IssNoradId, now, PassHorizonHours, now, passFeed, prop);
      if nextPass.Err? {
        return Err(nextPass.error);
      }
      return Ok(SatelliteData(|satellites|, satellites, issData.Some?, issData, nextPass.value, now));
    }
  }
}
