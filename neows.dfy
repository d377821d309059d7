/** The near-Earth-object feed coordinator: all objects of the feed's date lists in one list,
    the potentially hazardous ones counted, each object's closest approach, the twenty closest
    of those, and a default result instead of any error.

    The download is a parameter: a function from the requested range of days to the payload
    (`Err` when the request fails). */
module NeoWs {
  import opened Wrappers
  import opened Dicts
  import opened Sorting
  import opened PyText

  const Day: int := 86400

  /** How many approaches the result keeps. */
  const KeptApproaches: nat := 20

  /** One close approach of an object; a missing field is `None`. */
  datatype CloseApproach = CloseApproach(
    date: Option<string>, dateFull: Option<string>,
    missKm: Option<Cell>, missLunar: Option<Cell>, velocityKmh: Option<Cell>,
    orbitingBody: Option<string>)

  /** One near-Earth object of the feed; a missing field is `None`. */
  datatype Neo = Neo(
    id: Option<string>, name: Option<string>, hazardous: Option<bool>,
    closeApproachData: Option<seq<CloseApproach>>,
    diameterMinKm: Option<Cell>, diameterMaxKm: Option<Cell>)

  /** The feed; `nearEarthObjects` maps each date to the objects of that date. */
  datatype NeoFeed = NeoFeed(elementCount: Option<int>, nearEarthObjects: Option<Dict<string, seq<Neo>>>)

  /** The entry published for one object: its closest approach. */
  datatype NeoApproach = NeoApproach(
    id: string, name: string, isHazardous: bool, date: string, dateFull: string,
    missDistanceKm: real, missDistanceLunar: real, velocityKmh: real,
    diameterMinKm: real, diameterMaxKm: real, orbitingBody: string)

  /** What an update publishes. */
  datatype NeoData = NeoData(
    elementCount: int, nearEarthObjects: Dict<string, seq<Neo>>, hazardousCount: nat,
    closestApproaches: seq<NeoApproach>, totalNeos: nat, lastUpdate: int)

  /** The result of an update that fails. */
  function DefaultData(now: int): NeoData {
    NeoData(0, EmptyDict(), 0, [], 0, now)
  }

  /** The requested dates as UTC day numbers: the day of `now` and the day `daysAhead` days
      later. */
  function QueryRange(now: int, daysAhead: int): (int, int) {
    (now / Day, (now + daysAhead * Day) / Day)
  }

  /** The range starts on the day of `now` and ends exactly `daysAhead` days later. */
  lemma QueryRangeSpan(now: int, daysAhead: int)
    ensures QueryRange(now, daysAhead).0 * Day <= now < (QueryRange(now, daysAhead).0 + 1) * Day
    ensures QueryRange(now, daysAhead).1 == QueryRange(now, daysAhead).0 + daysAhead
  {
    var q, m := now / Day, now % Day;
    assert now + daysAhead * Day == (q + daysAhead) * Day + m;
  }

  // ---------------------------------------------------------------- flattening

  /** The objects of the date lists of `keys`, in that order. */
  function Flatten(keys: seq<string>, entries: map<string, seq<Neo>>): seq<Neo>
    requires forall k :: k in keys ==> k in entries
  {
    if keys == [] then []
    else Flatten(keys[..|keys| - 1], entries) + entries[keys[|keys| - 1]]
  }

  /** An object is in the flat list exactly when it is in the list of some date. */
  lemma {:induction false} FlattenMembers(keys: seq<string>, entries: map<string, seq<Neo>>, neo: Neo)
    requires forall k :: k in keys ==> k in entries
    ensures neo in Flatten(keys, entries) <==> exists k :: k in keys && neo in entries[k]
  {
    if keys != [] {
      var init := keys[..|keys| - 1];
      var last := keys[|keys| - 1];
      FlattenMembers(init, entries, neo);
      if neo in Flatten(keys, entries) && neo !in entries[last] {
        var k :| k in init && neo in entries[k];
        assert k in keys;
      }
      if neo in entries[last] {
        assert last in keys;
      } else if exists k :: k in keys && neo in entries[k] {
        var k :| k in keys && neo in entries[k];
        assert k in init;
      }
    }
  }

  /** The flattening loop: every list of the dict, in key order, appended object by object. */
  method FlattenNeos(d: Dict<string, seq<Neo>>) returns (all: seq<Neo>)
    requires d.Valid()
    ensures all == Flatten(d.keys, d.entries)
  {
    all := [];
    for i := 0 to |d.keys|
      invariant all == Flatten(d.keys[..i], d.entries)
    {
      assert d.keys[..i + 1][..i] == d.keys[..i];
      var neos := d.entries[d.keys[i]];
      for j := 0 to |neos|
        invariant all == Flatten(d.keys[..i], d.entries) + neos[..j]
      {
        assert neos[..j + 1] == neos[..j] + [neos[j]];
        all := all + [neos[j]];
      }
      assert neos[..|neos|] == neos;
    }
    assert d.keys[..|d.keys|] == d.keys;
  }

  // ---------------------------------------------------------------- hazardous count

  /** `sum(1 for neo in neos if neo.get("is_potentially_hazardous_asteroid", False))`. */
  function HazardousCount(neos: seq<Neo>): nat {
    if neos == [] then 0
    else HazardousCount(neos[..|neos| - 1]) + if neos[|neos| - 1].hazardous.GetOr(false) then 1 else 0
  }

  /** The count is the size of the set of positions holding a hazardous object. */
  lemma {:induction false} HazardousCountIsSize(neos: seq<Neo>)
    ensures HazardousCount(neos) == |set i | 0 <= i < |neos| && neos[i].hazardous.GetOr(false)|
  {
    if neos != [] {
      var n := |neos| - 1;
      var init := neos[..n];
      HazardousCountIsSize(init);
      var a := set i | 0 <= i < n && init[i].hazardous.GetOr(false);
      var b := set i | 0 <= i < |neos| && neos[i].hazardous.GetOr(false);
      if neos[n].hazardous.GetOr(false) {
        assert b == a + {n};
      } else {
        assert b == a;
      }
    }
  }

  /** At most every object is hazardous; the count of all objects is the count over the date
      lists added up. */
  lemma {:induction false} HazardousCountAppend(a: seq<Neo>, b: seq<Neo>)
    ensures HazardousCount(a + b) == HazardousCount(a) + HazardousCount(b)
    ensures HazardousCount(a) <= |a|
  {
    if b == [] {
      assert a + b == a;
      if a != [] {
        HazardousCountAppend(a[..|a| - 1], []);
      }
    } else {
      var init := b[..|b| - 1];
      assert (a + b)[..|a + b| - 1] == a + init;
      HazardousCountAppend(a, init);
    }
  }

  // ---------------------------------------------------------------- closest approach

  /** `float(x.get("miss_distance", {}).get("kilometers", float("inf")))`. */
  function MissKey(c: CloseApproach): Result<Key> {
    if c.missKm.None? then Ok(Infinity)
    else
      var km :- Float(c.missKm.value);
      Ok(Finite(km))
  }

  /** Python's `min(cads, key=...)`: it keeps the first item and its key, and takes a later item
      only when its key is strictly smaller. */
  function Closest(cads: seq<CloseApproach>): Result<(CloseApproach, Key)>
    requires cads != []
  {
    if |cads| == 1 then
      var k :- MissKey(cads[0]);
      Ok((cads[0], k))
    else
      var best :- Closest(cads[..|cads| - 1]);
      var last := cads[|cads| - 1];
      var k :- MissKey(last);
      Ok(if KeyLess(k, best.1) then (last, k) else best)
  }

  /** `min` fails exactly when some distance cannot be read; otherwise it returns the first
      approach with the least distance, with that distance. */
  lemma {:induction false} ClosestFacts(cads: seq<CloseApproach>)
    requires cads != []
    ensures Closest(cads).Err? <==> exists i :: 0 <= i < |cads| && MissKey(cads[i]).Err?
    ensures Closest(cads).Ok? ==>
      var (c, k) := Closest(cads).value;
      && (forall j :: 0 <= j < |cads| ==> MissKey(cads[j]).Ok? && KeyAtMost(k, MissKey(cads[j]).value))
      && exists i ::
        && 0 <= i < |cads| && cads[i] == c && MissKey(cads[i]) == Ok(k)
        && (forall j :: 0 <= j < i ==> KeyLess(k, MissKey(cads[j]).value))
  {
    if |cads| > 1 {
      var init := cads[..|cads| - 1];
      var last := cads[|cads| - 1];
      ClosestFacts(init);
      assert forall j :: 0 <= j < |init| ==> cads[j] == init[j];
      if Closest(init).Ok? && MissKey(last).Ok? {
        var (c, k) := Closest(init).value;
        var i :| 0 <= i < |init| && init[i] == c && MissKey(init[i]) == Ok(k)
          && (forall j :: 0 <= j < i ==> KeyLess(k, MissKey(init[j]).value));
        if KeyLess(MissKey(last).value, k) {
          assert cads[|cads| - 1] == last;
        } else {
          assert cads[i] == c;
        }
      } else if Closest(init).Err? {
        var i :| 0 <= i < |init| && MissKey(init[i]).Err?;
        assert cads[i] == init[i];
      }
    }
  }

  /** The entry for object `neo` whose closest approach is `c`; a missing number counts as 0. */
  function Entry(neo: Neo, c: CloseApproach): Result<NeoApproach> {
    var km :- FloatOr(c.missKm, 0.0);
    var lunar :- FloatOr(c.missLunar, 0.0);
    var kmh :- FloatOr(c.velocityKmh, 0.0);
    var dMin :- FloatOr(neo.diameterMinKm, 0.0);
    var dMax :- FloatOr(neo.diameterMaxKm, 0.0);
    Ok(NeoApproach(neo.id.GetOr(""), neo.name.GetOr("Unknown"), neo.hazardous.GetOr(false),
                   c.date.GetOr(""), c.dateFull.GetOr(""), km, lunar, kmh, dMin, dMax,
                   c.orbitingBody.GetOr("Earth")))
  }

  /** Whether `neo` has close-approach data (a missing or empty list has none). */
  predicate HasApproaches(neo: Neo) {
    neo.closeApproachData.GetOr([]) != []
  }

  /** The entry for an object with close-approach data. */
  function ClosestEntry(neo: Neo): Result<NeoApproach>
    requires HasApproaches(neo)
  {
    var best :- Closest(neo.closeApproachData.value);
    Entry(neo, best.0)
  }

  /** The objects of `neos` that have close-approach data, in order. */
  function WithApproaches(neos: seq<Neo>): (r: seq<Neo>)
    ensures forall n :: n in r ==> HasApproaches(n)
  {
    if neos == [] then []
    else
      var init := WithApproaches(neos[..|neos| - 1]);
      var last := neos[|neos| - 1];
      if HasApproaches(last) then init + [last] else init
  }

  /** The loop building the entries: one per object with close-approach data. */
  function ClosestEntries(neos: seq<Neo>): Result<seq<NeoApproach>> {
    if neos == [] then Ok([])
    else
      var init :- ClosestEntries(neos[..|neos| - 1]);
      var last := neos[|neos| - 1];
      if !HasApproaches(last) then Ok(init)
      else
        var e :- ClosestEntry(last);
        Ok(init + [e])
  }

  lemma {:induction false} ClosestEntriesErrPrefix(neos: seq<Neo>, i: nat)
    requires i <= |neos| && ClosestEntries(neos[..i]).Err?
    ensures ClosestEntries(neos) == ClosestEntries(neos[..i])
  {
    if i < |neos| {
      var init := neos[..|neos| - 1];
      assert init[..i] == neos[..i];
      ClosestEntriesErrPrefix(init, i);
    } else {
      assert neos[..i] == neos;
    }
  }

  /** Every object with close-approach data contributes exactly its own entry, in order, and
      objects without contribute nothing; the loop fails exactly when some entry fails. */
  lemma {:induction false} ClosestEntriesFacts(neos: seq<Neo>)
    ensures ClosestEntries(neos).Err? <==>
      exists j :: 0 <= j < |WithApproaches(neos)| && ClosestEntry(WithApproaches(neos)[j]).Err?
    ensures ClosestEntries(neos).Ok? ==>
      && |ClosestEntries(neos).value| == |WithApproaches(neos)|
      && (forall j :: 0 <= j < |WithApproaches(neos)| ==>
            ClosestEntry(WithApproaches(neos)[j]) == Ok(ClosestEntries(neos).value[j]))
  {
    if neos != [] {
      var init := neos[..|neos| - 1];
      var last := neos[|neos| - 1];
      ClosestEntriesFacts(init);
      var wi := WithApproaches(init);
      var w := WithApproaches(neos);
      assert w == wi + if HasApproaches(last) then [last] else [];
      if ClosestEntries(init).Err? {
        var j :| 0 <= j < |wi| && ClosestEntry(wi[j]).Err?;
        assert w[j] == wi[j];
      } else if !HasApproaches(last) {
        assert w == wi;
      } else if ClosestEntry(last).Err? {
        assert w[|wi|] == last;
      } else {
        forall j | 0 <= j < |w| ensures ClosestEntry(w[j]).Ok? {
          if j < |wi| {
            assert w[j] == wi[j];
          }
        }
      }
    }
  }

  /** The loop over all objects that builds the entries. */
  method CollectClosest(neos: seq<Neo>) returns (r: Result<seq<NeoApproach>>)
    ensures r == ClosestEntries(neos)
  {
    var entries: seq<NeoApproach> := [];
    for i := 0 to |neos|
      invariant ClosestEntries(neos[..i]) == Ok(entries)
    {
      assert neos[..i + 1][..i] == neos[..i];
      var neo := neos[i];
      if HasApproaches(neo) {
        var e := ClosestEntry(neo);
        if e.Err? {
          ClosestEntriesErrPrefix(neos, i + 1);
          return Err(e.error);
        }
        entries := entries + [e.value];
      }
    }
    assert neos[..|neos|] == neos;
    return Ok(entries);
  }

  /** The sort key of the entries: the recorded miss distance. */
  function KmKey(e: NeoApproach): Key {
    Finite(e.missDistanceKm)
  }

  // ---------------------------------------------------------------- update

  /** The feed is a well-formed JSON object: its date lists form a dict. */
  ghost predicate FeedValid(feed: Result<NeoFeed>) {
    feed.Ok? && feed.value.nearEarthObjects.Some? ==> feed.value.nearEarthObjects.value.Valid()
  }

  /** The update at instant `now` for the downloaded `feed`. */
  function NeoReport(feed: Result<NeoFeed>, now: int): NeoData
    requires FeedValid(feed)
  {
    if feed.Err? then DefaultData(now)
    else
      var neoDict := feed.value.nearEarthObjects.GetOr(EmptyDict());
      var all := Flatten(neoDict.keys, neoDict.entries);
      match ClosestEntries(all)
      case Err(_) => DefaultData(now)
      case Ok(entries) =>
        NeoData(feed.value.elementCount.GetOr(0), neoDict, HazardousCount(all),
                TakeFirst(Sort(entries, KmKey), KeptApproaches), |all|, now)
  }

  /** What an update publishes: the default data (zero counts, no objects, no approaches) when
      the download or an entry fails; otherwise the feed's element count (0 when missing) and
      dict, the number of all objects of all dates and of the hazardous ones among them, and at
      most twenty entries, in ascending miss distance, each the entry of one object with
      close-approach data. */
  lemma NeoReportFacts(feed: Result<NeoFeed>, now: int)
    requires FeedValid(feed)
    ensures var d := NeoReport(feed, now);
      && (feed.Err? ==> d == DefaultData(now))
      && d.lastUpdate == now
      && d.hazardousCount <= d.totalNeos
      && SortedBy(d.closestApproaches, KmKey)
      && |d.closestApproaches| <= KeptApproaches
      && (feed.Ok? ==>
        var neoDict := feed.value.nearEarthObjects.GetOr(EmptyDict());
        var all := Flatten(neoDict.keys, neoDict.entries);
        && (ClosestEntries(all).Err? ==> d == DefaultData(now))
        && (ClosestEntries(all).Ok? ==>
          && d.elementCount == feed.value.elementCount.GetOr(0)
          && d.nearEarthObjects == neoDict
          && d.totalNeos == |all|
          && d.hazardousCount == HazardousCount(all)
          && |d.closestApproaches| ==
               (if |WithApproaches(all)| <= KeptApproaches then |WithApproaches(all)| else KeptApproaches)
          && IsLeast(d.closestApproaches, ClosestEntries(all).value, KmKey)
          && (forall e :: e in d.closestApproaches ==>
                exists n :: n in WithApproaches(all) && ClosestEntry(n) == Ok(e))))
  {
    if feed.Ok? {
      var neoDict := feed.value.nearEarthObjects.GetOr(EmptyDict());
      var all := Flatten(neoDict.keys, neoDict.entries);
      HazardousCountAppend(all, []);
      if ClosestEntries(all).Ok? {
        KeptFromObjects(all);
      }
    }
  }

  /** The kept entries are the twenty nearest (all of them when there are fewer), and each is
      the entry of one object with close-approach data. */
  lemma KeptFromObjects(all: seq<Neo>)
    requires ClosestEntries(all).Ok?
    ensures var entries := ClosestEntries(all).value;
      var kept := TakeFirst(Sort(entries, KmKey), KeptApproaches);
      && SortedBy(kept, KmKey)
      && |kept| == (if |WithApproaches(all)| <= KeptApproaches then |WithApproaches(all)| else KeptApproaches)
      && IsLeast(kept, entries, KmKey)
      && forall e :: e in kept ==> exists n :: n in WithApproaches(all) && ClosestEntry(n) == Ok(e)
  {
    ClosestEntriesFacts(all);
    var entries := ClosestEntries(all).value;
    KeptEntries(entries);
    forall e | e in TakeFirst(Sort(entries, KmKey), KeptApproaches)
      ensures exists n :: n in WithApproaches(all) && ClosestEntry(n) == Ok(e)
    {
      var j :| 0 <= j < |entries| && entries[j] == e;
      assert WithApproaches(all)[j] in WithApproaches(all);
    }
  }

  /** The kept entries are the twenty entries of `entries` with the least miss distance (all of
      them when there are fewer), in ascending miss distance. */
  lemma KeptEntries(entries: seq<NeoApproach>)
    ensures var kept := TakeFirst(Sort(entries, KmKey), KeptApproaches);
      && SortedBy(kept, KmKey)
      && |kept| == (if |entries| <= KeptApproaches then |entries| else KeptApproaches)
      && (forall e :: e in kept ==> e in entries)
      && IsLeast(kept, entries, KmKey)
  {
    SortTakeFirstSorted(entries, KmKey, KeptApproaches);
    SortTakeFirstIsLeast(entries, KmKey, KeptApproaches);
  }

  class NeoWsCoordinator {
    /** How many days past today the requested range reaches. */
    const daysAhead: int

    /** A coordinator asking for `daysAhead` days (7 by default in the source). */
    constructor (daysAhead: int)
      ensures this.daysAhead == daysAhead
    {
      this.daysAhead := daysAhead;
    }

    /** `_async_update_data` at instant `now`; `fetch` answers the request for a range of days. */
    method Update(now: int, fetch: ((int, int)) -> Result<NeoFeed>) returns (d: NeoData)
      requires FeedValid(fetch(QueryRange(now, daysAhead)))
      ensures d == NeoReport(fetch(QueryRange(now, daysAhead)), now)
    {
      var feed := fetch(QueryRange(now, daysAhead));
      if feed.Err? {
        return DefaultData(now);
      }
      var neoDict := feed.value.nearEarthObjects.GetOr(EmptyDict());
      var all := FlattenNeos(neoDict);
      var pha := HazardousCount(all);
      var entries := CollectClosest(all);
      if entries.Err? {
        return DefaultData(now);
      }
      var sorted := Sort(entries.value, KmKey);
      return NeoData(feed.value.elementCount.GetOr(0), neoDict, pha, TakeFirst(sorted, KeptApproaches), |all|, now);
    }
  }
}
