# NASA Sky Hub: a verified model of its decision logic

NASA Sky Hub is a Home Assistant integration. It tracks satellites from a CelesTrak TLE
feed, describes the night sky at the observer's location, grades space weather from NASA DONKI
flares and geomagnetic storms, and summarises asteroid feeds (JPL Sentry, JPL close-approach
data, NASA NeoWs). It spaces its NASA API calls with a rate limiter, and it offers four service
calls to refresh data, prefetch pictures and request pass calculations.

All positional astronomy is delegated to Skyfield. What the integration owns is the bookkeeping
and decision logic around those numbers, and that is what this project models in Dafny:

- The satellite tracker (`SatelliteTracker`). A class holding the catalog, the names and the
  download time. It parses the feed in three-line groups, keeps a 24-hour cache, falls back to
  the stale catalog on a failed download, and lists the visible satellites. It finds the next
  pass with a 0.1-hour rise search, a one-minute set search and a one-minute running-maximum
  peak search.
- The sky calculator (`SkyCalculator`) and the sky coordinator (`SkyCoordinator`):
  - the darkness bands and astronomical night;
  - the `HH:MM` sidereal-time text;
  - the constellation filter and the brightest-object selection over the fixed tables;
  - the good-stargazing rule.
- The satellite coordinator (`SatelliteCoordinator`): the ISS lookup, the overhead count and the
  next ISS pass.
- The space-weather coordinator (`SpaceWeather`): the recent-flare and active-storm filters and
  the four-level severity ladder.
- The asteroid coordinators (`Asteroids`, `NeoWs`):
  - the Palermo-scale maximum;
  - the header-indexed row decoding;
  - stable sorts where a missing value sorts last;
  - top-N truncation, counts, and fallbacks that never raise.
- The rate limiter (`RateLimiter`). A class with the remaining allowance, the limit, the reset
  time, the back-off deadline and the consecutive-429 counter.
- The service handlers (`Services`): the entry resolution, the refresh of all coordinators, the
  exact-then-prefix coordinator lookup, the inclusive day walk of the picture prefetch, and the
  argument checks of the pass calculation.

Shared modules model the Python behaviour the source relies on:

- `Wrappers`: `Option`, and `Result` with the Python exception kinds the code catches.
- `PyText`: `str.strip`, `int(str)`, `str(int)`, the `:02d` format, `str.split`, and `float()` on
  a JSON value.
- `Dicts`: a dict that remembers insertion order.
- `Sorting`: the stable `list.sort(key=...)` and the slice `s[:n]`.

Conventions:

- Time is an integer number of seconds.
- Every Skyfield answer is a parameter:
  - a satellite propagator `(tle, t) -> Option<Topocentric>`, where `None` stands for a
    propagation exception;
  - the sun and Moon altitudes;
  - the local sidereal time;
  - a `Trig` record for the `sin`/`acos` formula of the visibility test.
- Every download is a parameter of `Option`/`Result` type.
- Stateful source objects are classes whose methods are proved equal to specification functions.
  The properties are proved about those functions.

Two behaviours of the code are modelled as written and are worth knowing:

- The visibility test of the sky calculator compares `degrees(acos(sin_alt))` with 10. That is
  the angle from the zenith, so an object on the horizon passes and one at the zenith does not
  (`SkyCalculator.TestIsZenithAngle`).
- Missing numbers are handled unevenly in the asteroid feeds:
  - In NeoWs, a close approach without a kilometre distance counts as infinitely far when the
    closest one is picked, but its entry records 0 km, so it sorts first.
  - In the close-approach data, a distance of exactly 0.0 is false in Python and sorts last.

## Model

| member | source | states |
|---|---|---|
| SatelliteTracker.Groups | custom_components/nasa_sky_hub/satellite_tracker.py:59-62 | one group per complete run of three lines, starting at 0, 3, 6, …; group h holds the stripped lines 3h, 3h+1, 3h+2 |
| SatelliteTracker.ParseTles | custom_components/nasa_sky_hub/satellite_tracker.py:57-70 | the parsing loop builds exactly the catalog `ParseFeed` describes |
| SatelliteTracker.FoldKeys | custom_components/nasa_sky_hub/satellite_tracker.py:64-70 | a number is in the catalog iff some group's line 1 yields it; groups whose slice is not an integer are skipped |
| SatelliteTracker.FoldLastWins | custom_components/nasa_sky_hub/satellite_tracker.py:66-68 | for each number, the catalog holds the element lines and the name of the last group carrying it |
| SatelliteTracker.ParseFeedIgnoresIncompleteGroup | custom_components/nasa_sky_hub/satellite_tracker.py:59 | one or two trailing lines that do not complete a group change nothing |
| SatelliteTracker.ElementLineNumber | custom_components/nasa_sky_hub/satellite_tracker.py:61-66 | a standard line 1 ("1 " then five digits), with any surrounding white space, yields its catalog number from columns 3-7 |
| SatelliteTracker.Slice | custom_components/nasa_sky_hub/satellite_tracker.py:66 | Python slicing: never longer than hi-lo, exactly `s[lo..hi]` when the string is long enough |
| SatelliteTracker.RefreshOutcomes | custom_components/nasa_sky_hub/satellite_tracker.py:41-80 | the refresh skips iff it is unforced and the last download is under 24 h old; a successful download replaces catalog, names and time wholesale; a failed one keeps everything; it raises iff the download failed with no catalog |
| SatelliteTracker.RefreshIsCached | custom_components/nasa_sky_hub/satellite_tracker.py:43-48 | after a successful download, every unforced refresh in the next 24 h is skipped whatever the network returns |
| SatelliteTracker.RefreshSettles | custom_components/nasa_sky_hub/satellite_tracker.py:41-80 | after a refresh that did not raise, a second one at the same instant does not raise, and downloads again only after a failed download |
| SatelliteTracker.DisplayName | custom_components/nasa_sky_hub/satellite_tracker.py:112 | the stored name, or `SAT-<number>` when there is none |
| SatelliteTracker.VisibleIdsMembers | custom_components/nasa_sky_hub/satellite_tracker.py:95-102 | an id is listed iff it is in the catalog, its position can be computed and its elevation is at least the minimum (boundary included) |
| SatelliteTracker.VisibleListEntries | custom_components/nasa_sky_hub/satellite_tracker.py:102-120 | each entry carries its number, the computed azimuth, elevation and range, the display name, and sunlit = true; entries are in catalog order |
| SatelliteTracker.ScanVisible | custom_components/nasa_sky_hub/satellite_tracker.py:95-125 | the position loop over the catalog yields exactly the visible list |
| SatelliteTracker.VisibleQueryFacts | custom_components/nasa_sky_hub/satellite_tracker.py:86-125 | the listing refreshes only an empty catalog, fails iff that refresh raises, and otherwise lists exactly the visible satellites |
| SatelliteTracker.SearchPass | custom_components/nasa_sky_hub/satellite_tracker.py:163-212 | the three search loops return exactly the pass `NextPass` defines |
| SatelliteTracker.SetFromFacts | custom_components/nasa_sky_hub/satellite_tracker.py:176-183 | the set search stops a whole number of minutes later, not past the window end; the satellite is up at every minute before the stop, and down at it unless the window ended |
| SatelliteTracker.PeakFromFacts | custom_components/nasa_sky_hub/satellite_tracker.py:185-196 | the peak search returns a maximum over the minute samples, replacing only on strictly higher values, so the earliest highest sample wins |
| SatelliteTracker.PassFromFacts | custom_components/nasa_sky_hub/satellite_tracker.py:167-176 | the rise is the first 0.1-hour sample with elevation above 0; every earlier sample is at or below the horizon |
| SatelliteTracker.PassAtFacts | custom_components/nasa_sky_hub/satellite_tracker.py:176-208 | rise < set ≤ window end; rise ≤ peak time < set; peak elevation > 0 and no minute sample above it; duration is the whole minutes from rise to set |
| SatelliteTracker.NextPassShape | custom_components/nasa_sky_hub/satellite_tracker.py:163-208 | a found pass rises at the first coarse sample above the horizon (rise = start if already up) and has the shape above |
| SatelliteTracker.NoPassWhenAlwaysDown | custom_components/nasa_sky_hub/satellite_tracker.py:167-217 | a satellite at or below the horizon at every 0.1-hour sample of the window has no pass |
| SatelliteTracker.PassWhenSomeSampleUp | custom_components/nasa_sky_hub/satellite_tracker.py:169-176 | with a propagator that never fails, a pass is found as soon as one coarse sample is above the horizon |
| SatelliteTracker.SetFromTotal | custom_components/nasa_sky_hub/satellite_tracker.py:178-183 | with a propagator that never fails, the set search always finishes with an answer |
| SatelliteTracker.PeakFromTotal | custom_components/nasa_sky_hub/satellite_tracker.py:188-196 | with a propagator that never fails, the peak search always finishes with an answer |
| SatelliteTracker.Tracker.constructor | custom_components/nasa_sky_hub/satellite_tracker.py:19-30 | a tracker for the given place, with an empty catalog, no names and no download time |
| SatelliteTracker.Tracker.UpdateTlesIfNeeded | custom_components/nasa_sky_hub/satellite_tracker.py:41-80 | the fields afterwards and the outcome are those of `Refresh` on the fields before |
| SatelliteTracker.Tracker.GetVisibleSatellites | custom_components/nasa_sky_hub/satellite_tracker.py:82-125 | the fields afterwards and the result are those of `VisibleQuery` |
| SatelliteTracker.Tracker.GetNextPass | custom_components/nasa_sky_hub/satellite_tracker.py:144-217 | the fields afterwards and the result are those of `PassQuery`: refresh if the id is missing, `None` if it is still missing, else the pass search |
| SkyCalculator.DarknessBands | custom_components/nasa_sky_hub/sky_calculator.py:65-85 | darkness is 0.0 above the horizon, 0.3, 0.6 and 0.8 on the three 6-degree twilight bands, 1.0 at or below -18; always one of these five and within [0, 1] |
| SkyCalculator.DarknessNonIncreasing | custom_components/nasa_sky_hub/sky_calculator.py:72-85 | a higher sun never gives a darker level |
| SkyCalculator.NightIsDarkest | custom_components/nasa_sky_hub/sky_calculator.py:58-85 | night implies darkness 1.0; at exactly -18 the level is 1.0 but it is not night; level 1.0 iff the sun is at or below -18 |
| SkyCalculator.SiderealTimeFormat | custom_components/nasa_sky_hub/sky_calculator.py:50-56 | for a sidereal time in [0, 24) the text is `HH:MM`; the two halves read back as the whole hours (0-23) and the whole minutes past the hour |
| SkyCalculator.SiderealTimeText | custom_components/nasa_sky_hub/sky_calculator.py:54-56 | the text is the two truncations, each written with two digits, separated by a colon |
| SkyCalculator.MinutesOfHour | custom_components/nasa_sky_hub/sky_calculator.py:54-55 | the minutes past the hour lie in 0..59 and, with the hours, make up the whole minutes of the sidereal time |
| SkyCalculator.TwoDigitsReadsBack | custom_components/nasa_sky_hub/sky_calculator.py:56 | `:02d` of 0..99 is two characters that `int()` reads back |
| SkyCalculator.HoursMinutesText | custom_components/nasa_sky_hub/sky_calculator.py:56 | hours and minutes below 100 make a five-character `HH:MM` whose halves read back |
| SkyCalculator.Clamp | custom_components/nasa_sky_hub/sky_calculator.py:102 | `max(-1, min(1, x))` lies in [-1, 1], is x inside it and the nearer bound outside |
| SkyCalculator.NamesPassingMembers | custom_components/nasa_sky_hub/sky_calculator.py:92-107 | a name is listed iff some table constellation with that name passes the test; at most the table's length |
| SkyCalculator.TestIsZenithAngle | custom_components/nasa_sky_hub/sky_calculator.py:101-104 | the test, as written, passes an object on the horizon and rejects one at the zenith |
| SkyCalculator.BestOfIsFirstMinimum | custom_components/nasa_sky_hub/sky_calculator.py:115-143 | the selection is a candidate of least magnitude, every earlier candidate is strictly fainter, and there is one iff there is a candidate |
| SkyCalculator.BrightestStep | custom_components/nasa_sky_hub/sky_calculator.py:126-143 | a star replaces the best so far iff it passes the test and is strictly brighter |
| SkyCalculator.BestOfLeader | custom_components/nasa_sky_hub/sky_calculator.py:118-136 | a first candidate strictly brighter than all later ones is selected, since later ones replace it only when strictly brighter |
| SkyCalculator.StarCandidatesFainterThanMoon | custom_components/nasa_sky_hub/sky_calculator.py:27-36 | every star candidate keeps its table magnitude, fainter than the Moon's |
| SkyCalculator.MoonOutshinesTableStars | custom_components/nasa_sky_hub/sky_calculator.py:115-143 | with the fixed star table, the Moon is the brightest object whenever it is above the horizon |
| SkyCalculator.SkyCalculator.constructor | custom_components/nasa_sky_hub/sky_calculator.py:17-48 | a calculator for the given place with the eight stars and eight constellations of the source; its methods are the five queries, so any other attribute raises `AttributeError` |
| SkyCalculator.SkyCalculator.GetVisibleConstellations | custom_components/nasa_sky_hub/sky_calculator.py:87-107 | the append loop yields the passing names in table order |
| SkyCalculator.SkyCalculator.GetBrightestObject | custom_components/nasa_sky_hub/sky_calculator.py:109-145 | the loop yields the first least-magnitude candidate (Moon first, then the stars), or the "None" object |
| SatelliteCoordinator.FirstWithId | custom_components/nasa_sky_hub/coordinators/satellites.py:53-57 | `None` iff no entry has the number; otherwise an entry of the list with that number |
| SatelliteCoordinator.FirstWithIdIsFirst | custom_components/nasa_sky_hub/coordinators/satellites.py:53-57 | the entry found is the earliest with that number |
| SatelliteCoordinator.FindIss | custom_components/nasa_sky_hub/coordinators/satellites.py:53-57 | the loop with `break` finds exactly the first ISS entry |
| SatelliteCoordinator.SatelliteUpdateFacts | custom_components/nasa_sky_hub/coordinators/satellites.py:42-72 | the update fails iff its own unforced refresh raises; otherwise: count = list length; list = visible satellites at elevation ≥ 0 in the refreshed catalog; ISS overhead iff its entry is found, iff the ISS is in the catalog and visible; time stamp = now |
| SatelliteCoordinator.SatelliteUpdateOk | custom_components/nasa_sky_hub/coordinators/satellites.py:44-69 | after a refresh that did not raise, neither the listing nor the pass search fails, and the published data is assembled from them |
| SatelliteCoordinator.IssOverheadIffVisible | custom_components/nasa_sky_hub/coordinators/satellites.py:50-66 | the ISS has an entry iff it is in the catalog and visible |
| SatelliteCoordinator.SatelliteUpdatePass | custom_components/nasa_sky_hub/coordinators/satellites.py:49-67 | with the ISS in the catalog, the next pass is its pass search from the same `now` over 24 hours |
| SatelliteCoordinator.SatelliteCoordinator.constructor | custom_components/nasa_sky_hub/coordinators/satellites.py:37-40 | a fresh tracker at the given latitude and longitude, elevation 0, empty cache |
| SatelliteCoordinator.SatelliteCoordinator.Update | custom_components/nasa_sky_hub/coordinators/satellites.py:42-72 | the tracker afterwards and the result are those of `SatelliteUpdate` |
| SkyCoordinator.GoodStargazingIff | custom_components/nasa_sky_hub/coordinators/sky.py:54-58 | good stargazing iff the sun is below -18 and more than five constellations pass; the darkness condition adds nothing |
| SkyCoordinator.SkyReportFacts | custom_components/nasa_sky_hub/coordinators/sky.py:44-68 | night implies darkness 1.0; the constellations are exactly the passing ones of the table; the Moon is brightest whenever up; good stargazing as above; time stamp = now |
| SkyCoordinator.SkyCoordinator.constructor | custom_components/nasa_sky_hub/coordinators/sky.py:34-37 | a fresh calculator at the given latitude and longitude, elevation 0, with the source's tables and methods |
| SkyCoordinator.SkyCoordinator.UpdateAsWritten | custom_components/nasa_sky_hub/coordinators/sky.py:39-71 | as written, every update fails: the calculator has no `_ensure_eph_loaded` (`AttributeError`), and with that method present the naive `datetime.now()` would still be refused (`ValueError`); either becomes `UpdateFailed` |
| SkyCoordinator.SkyCoordinator.Update | custom_components/nasa_sky_hub/coordinators/sky.py:44-68 | without the missing call and with a time-zone-aware current time, the update publishes `SkyReport`, all five answers taken at the same instant |
| SkyCoordinator.SkyCoordinator.UpdateAt | custom_components/nasa_sky_hub/coordinators/sky.py:44-68 | the calculations at a given `datetime`: `ValueError` iff it has no time zone, otherwise `SkyReport` at its instant |
| SpaceWeather.RecentFlaresFacts | custom_components/nasa_sky_hub/coordinators/space_weather.py:59-63 | keeps exactly the flares that began strictly within the last 24 h; fails iff some start time cannot be read |
| SpaceWeather.ActiveStormsFacts | custom_components/nasa_sky_hub/coordinators/space_weather.py:70-74 | keeps exactly the storms with start ≤ now ≤ end; fails iff a time that is read cannot be read |
| SpaceWeather.FlaresOfClass | custom_components/nasa_sky_hub/coordinators/space_weather.py:67-68 | the filtered list is non-empty iff some flare's class starts with the letter |
| SpaceWeather.AnyKpAtLeastFacts | custom_components/nasa_sky_hub/coordinators/space_weather.py:76-79 | `any` over the first Kp readings (missing = 0) answers whether some storm reaches the threshold, failing only when some storm has an empty reading list |
| SpaceWeather.ClassifyIsLadder | custom_components/nasa_sky_hub/coordinators/space_weather.py:76-81 | the if/elif chain answers the severity ladder, and answers whenever every active storm's first Kp reading can be taken |
| SpaceWeather.LadderLevels | custom_components/nasa_sky_hub/coordinators/space_weather.py:66-81 | severe iff an X flare or Kp ≥ 8; storm iff not severe and an M flare or Kp ≥ 6; elevated iff neither and something is present; quiet iff nothing is |
| SpaceWeather.LadderMonotoneInFlares | custom_components/nasa_sky_hub/coordinators/space_weather.py:76-81 | one more recent flare never lowers the severity |
| SpaceWeather.LadderMonotoneInStorms | custom_components/nasa_sky_hub/coordinators/space_weather.py:76-81 | one more active storm never lowers the severity |
| SpaceWeather.SpaceWeatherUpdateFacts | custom_components/nasa_sky_hub/coordinators/space_weather.py:35-99 | a failed download fails the update; otherwise flare count = number of recent flares, storms = active ones, ejections passed through, severity = ladder; it succeeds when every value read is readable |
| Asteroids.ScanRisk | custom_components/nasa_sky_hub/coordinators/asteroids.py:48-57 | the loop yields exactly the running maximum `Scan` defines |
| Asteroids.ScanFacts | custom_components/nasa_sky_hub/coordinators/asteroids.py:48-57 | fails iff some `ps_cum` cannot be read; maximum ≥ -999 and no value above it; no highest-risk object iff the maximum is -999; otherwise it is the first object with the maximum |
| Asteroids.SentryUpdate | custom_components/nasa_sky_hub/coordinators/asteroids.py:35-91 | the Sentry update yields exactly `SentryReport` |
| Asteroids.SentryReportFacts | custom_components/nasa_sky_hub/coordinators/asteroids.py:35-91 | fallback (count 0, no threats) iff the download or a value fails; otherwise all objects, their count, the maximum Palermo value (at least -999, no object above it) and an object carrying it, or none iff the maximum is -999 |
| Asteroids.FieldMapFacts | custom_components/nasa_sky_hub/coordinators/asteroids.py:138 | the field map holds exactly the header names, each at the position of its last occurrence |
| Asteroids.NumberColumnFacts | custom_components/nasa_sky_hub/coordinators/asteroids.py:145-149 | a name absent from the header gives `None`; otherwise the cell of its last column gives `None` when empty or null, and its number otherwise |
| Asteroids.DecodeRowsFacts | custom_components/nasa_sky_hub/coordinators/asteroids.py:140-151 | one approach per non-empty row, in order, each that row's decoding; fails iff some non-empty row fails |
| Asteroids.CollectApproaches | custom_components/nasa_sky_hub/coordinators/asteroids.py:140-151 | the append loop yields exactly `DecodeRows` |
| Asteroids.CadUpdate | custom_components/nasa_sky_hub/coordinators/asteroids.py:112-190 | the close-approach update yields exactly `CadReport` |
| Asteroids.CadReportFacts | custom_components/nasa_sky_hub/coordinators/asteroids.py:112-190 | fallback iff the download or decoding fails; otherwise total = all approaches; the kept list is the ten nearest decoded approaches (all when fewer), in ascending distance: drawn from the decoded list counting repeats, and no approach left out is nearer than one kept; next approach `None` iff there are none, else one with the least distance |
| Asteroids.SortedApproaches | custom_components/nasa_sky_hub/coordinators/asteroids.py:154-162 | sort then `[:10]` keeps min(n, 10) decoded approaches in ascending distance, none left out nearer than one kept, with a least-distance one first |
| Asteroids.CadKeepsTiesInOrder | custom_components/nasa_sky_hub/coordinators/asteroids.py:154 | approaches at the same distance (including all missing ones) keep their download order |
| NeoWs.QueryRangeSpan | custom_components/nasa_sky_hub/coordinators/neows.py:51-52 | the range starts on the day of `now` and ends `days_ahead` days later |
| NeoWs.FlattenMembers | custom_components/nasa_sky_hub/coordinators/neows.py:62-65 | an object is in the flat list iff it is in some date's list |
| NeoWs.FlattenNeos | custom_components/nasa_sky_hub/coordinators/neows.py:62-65 | the nested loops yield all date lists concatenated in key order |
| NeoWs.HazardousCountIsSize | custom_components/nasa_sky_hub/coordinators/neows.py:68 | the hazardous count is the number of positions holding a hazardous object |
| NeoWs.HazardousCountAppend | custom_components/nasa_sky_hub/coordinators/neows.py:68 | the count adds up over concatenation and never exceeds the number of objects |
| NeoWs.ClosestFacts | custom_components/nasa_sky_hub/coordinators/neows.py:76-79 | `min` fails iff some distance cannot be read; otherwise it returns the first approach with the least distance (missing = ∞) |
| NeoWs.ClosestEntriesFacts | custom_components/nasa_sky_hub/coordinators/neows.py:71-97 | each object with close-approach data gives exactly its own entry, in order; others give none; fails iff some entry fails |
| NeoWs.CollectClosest | custom_components/nasa_sky_hub/coordinators/neows.py:71-97 | the loop yields exactly `ClosestEntries` |
| NeoWs.NeoReportFacts | custom_components/nasa_sky_hub/coordinators/neows.py:37-124 | an error gives the default data; otherwise element count passed through (default 0), the date dict, total = all objects, hazardous count ≤ total, and the kept entries are the 20 with the least miss distance (all when fewer), sorted by km, each the entry of one object |
| NeoWs.KeptFromObjects | custom_components/nasa_sky_hub/coordinators/neows.py:100-106 | the kept entries are min(n, 20) of the objects' entries, sorted by km, none left out closer than one kept, each the entry of an object with approaches |
| NeoWs.KeptEntries | custom_components/nasa_sky_hub/coordinators/neows.py:100-106 | sort then `[:20]` keeps the min(n, 20) entries with the least km, in ascending km |
| NeoWs.NeoWsCoordinator.constructor | custom_components/nasa_sky_hub/coordinators/neows.py:20-35 | a coordinator for the given number of days ahead |
| NeoWs.NeoWsCoordinator.Update | custom_components/nasa_sky_hub/coordinators/neows.py:37-124 | the update requests the range for `now` and publishes `NeoReport` of the answer |
| RateLimiter.BackoffSchedule | custom_components/nasa_sky_hub/rate_limiter.py:100-103 | the back-off is 2, 4, 8, 16, 32 minutes for the first five 429s, then 60, and never shrinks |
| RateLimiter.AcquireSpec | custom_components/nasa_sky_hub/rate_limiter.py:33-70 | acquire never goes back in time; an active back-off is waited out to its deadline, which is then cleared (and only then); limit, reset and counter unchanged; with allowance left it returns at the end of the back-off, or at once, with the allowance unchanged; an exhausted allowance is waited out until a future reset or renewed to the limit |
| RateLimiter.AfterResponse | custom_components/nasa_sky_hub/rate_limiter.py:72-95 | each header present and integer sets its field, others leave it; the deadline is untouched and the counter goes to 0 |
| RateLimiter.RemainingHeaderRead | custom_components/nasa_sky_hub/rate_limiter.py:75-79 | a remaining header holding the decimal text of n sets the allowance to n |
| RateLimiter.After429 | custom_components/nasa_sky_hub/rate_limiter.py:97-107 | the counter goes up by one and the limiter is in back-off for between 2 and 60 minutes; nothing else changes |
| RateLimiter.RequestAsWritten | custom_components/nasa_sky_hub/api_client.py:54-76 | in the client's call order, a 429 answer leaves the counter at 1 and a 2-minute back-off |
| RateLimiter.RequestAsWrittenThirdBackoff | custom_components/nasa_sky_hub/api_client.py:54-76 | the third consecutive 429 still backs off for 2 minutes |
| RateLimiter.RequestEscalates | custom_components/nasa_sky_hub/rate_limiter.py:97-103 | with the reset skipped for 429 answers, k more consecutive 429s raise the counter by k, and the last one backs off by the schedule's value for the new count (2, 4, 8, 16, 32, then 60 minutes) |
| RateLimiter.RateLimiter.constructor | custom_components/nasa_sky_hub/rate_limiter.py:23-31 | allowance and limit 1000, no reset time, no back-off, counter 0 |
| RateLimiter.RateLimiter.Acquire | custom_components/nasa_sky_hub/rate_limiter.py:33-70 | always grants; fields and return instant as `AcquireSpec` |
| RateLimiter.RateLimiter.RecordResponse | custom_components/nasa_sky_hub/rate_limiter.py:72-95 | fields as `AfterResponse` |
| RateLimiter.RateLimiter.Record429 | custom_components/nasa_sky_hub/rate_limiter.py:97-107 | fields as `After429` |
| RateLimiter.RateLimiter.GetStatus | custom_components/nasa_sky_hub/rate_limiter.py:109-123 | reports the fields and profile; in back-off iff a deadline is set and not yet reached |
| Services.ResolveEntry | custom_components/nasa_sky_hub/services.py:17-24 | the named entry, else the first config entry; none iff neither exists |
| Services.RefreshableFacts | custom_components/nasa_sky_hub/services.py:38-41 | the refreshed names are exactly the coordinators that can refresh, each once |
| Services.RefreshAllFacts | custom_components/nasa_sky_hub/services.py:15-41 | "no config entries" iff no entry resolves; "entry not found" iff the resolved entry is unknown; "no coordinators" iff it has none; otherwise it refreshes, and asks exactly the refreshable coordinators, each once |
| Services.RefreshAllService | custom_components/nasa_sky_hub/services.py:15-41 | the handler's loop yields exactly `RefreshAll` |
| Services.FirstWithPrefix | custom_components/nasa_sky_hub/services.py:72-75 | `None` iff no key starts with the module name; otherwise the first such key |
| Services.FindCoordinator | custom_components/nasa_sky_hub/services.py:68-75 | the selected name is a stored coordinator |
| Services.FindCoordinatorFacts | custom_components/nasa_sky_hub/services.py:68-79 | an exact name wins; any selection starts with the module name; nothing selected iff no name starts with it |
| Services.RefreshModuleFacts | custom_components/nasa_sky_hub/services.py:44-84 | without entries or module name it refreshes nothing; an unknown entry is "not found"; for a known entry it refreshes exactly the selected coordinator when that can refresh, nothing when it cannot, and is "coordinator not found" iff no name starts with the module name |
| Services.RefreshModuleService | custom_components/nasa_sky_hub/services.py:44-84 | the exact lookup then the prefix loop with `break` yield exactly `RefreshModule` |
| Services.PrefetchDaysFacts | custom_components/nasa_sky_hub/services.py:105-116 | one day per step from start to end inclusive, (end-start)/day+1 of them, none when start > end |
| Services.PrefetchIgnoresFailures | custom_components/nasa_sky_hub/services.py:109-116 | the days requested do not depend on which requests fail; the failures are exactly the requested days that failed |
| Services.FailuresMembers | custom_components/nasa_sky_hub/services.py:111-115 | a day is recorded as failed iff it was requested and its request failed |
| Services.PrefetchService | custom_components/nasa_sky_hub/services.py:87-118 | the while-loop yields exactly `Prefetch` |
| Services.CalculatePasses | custom_components/nasa_sky_hub/services.py:121-137 | refused iff the catalog number is missing or zero, or the entry is unknown; otherwise accepted with nothing computed |
| Sorting.SortIsSorted | custom_components/nasa_sky_hub/coordinators/asteroids.py:154 | `list.sort(key=...)` leaves the list in ascending key order |
| Sorting.SortIsPermutation | custom_components/nasa_sky_hub/coordinators/asteroids.py:154 | the sorted list holds the same items, each as often |
| Sorting.SortIsStable | custom_components/nasa_sky_hub/coordinators/asteroids.py:154 | items with equal keys keep their relative order |
| Sorting.TakeFirst | custom_components/nasa_sky_hub/coordinators/asteroids.py:162 | `s[:n]` is the prefix of length min(\|s\|, n) |
| Sorting.SortTakeFirstIsLeast | custom_components/nasa_sky_hub/coordinators/asteroids.py:154-162 | the first n items after a sort are n least items: a sub-multiset of the input, and no item left out has a smaller key than one kept |
| Sorting.SortTakeFirstSorted | custom_components/nasa_sky_hub/coordinators/asteroids.py:154-162 | the first n items after a sort are in ascending key order and come from the input |
| Sorting.SortFirstIsLeast | custom_components/nasa_sky_hub/coordinators/asteroids.py:154-158 | the first item after sorting a non-empty list is one of its items with the least key |
| Dicts.Put | custom_components/nasa_sky_hub/satellite_tracker.py:67-68 | `d[k] = v`: a new key goes last, an existing key keeps its place and takes the value |
| PyText.StripLeftFacts | custom_components/nasa_sky_hub/satellite_tracker.py:60-62 | `lstrip` removes exactly the leading white space |
| PyText.StripRightFacts | custom_components/nasa_sky_hub/satellite_tracker.py:60-62 | `rstrip` removes exactly the trailing white space |
| PyText.SplitJoin | custom_components/nasa_sky_hub/satellite_tracker.py:54 | joining the pieces of `split` gives back the text |
| PyText.IntToStringParses | custom_components/nasa_sky_hub/rate_limiter.py:77 | `int(str(n)) == n` |
| PyText.ZeroPaddedParses | custom_components/nasa_sky_hub/satellite_tracker.py:66 | `int()` reads back a zero-padded number |
| PyText.Trunc | custom_components/nasa_sky_hub/sky_calculator.py:54-55 | `int(x)` of a float truncates toward zero |

## Left out

- Skyfield and the ephemeris are not part of this model. Satellite propagation, alt/az, the sun and Moon altitudes, local sidereal time and the `sin`/`acos` formula of the visibility test are parameters. Only the clamp of that formula is modelled.
- The download of the ephemeris (`_ensure_eph_loaded`, `load("de421.bsp")`) is not modelled; the tracker's ephemeris is never loaded by the callers, so `_is_sunlit` is not reached and every entry is sunlit.
- Network requests, `aiohttp`, response status handling other than 429, and the JSON decoding are left out. Each payload is a parameter; a failed request is `None` or `Err`.
- The query arguments of the requests (the DONKI three-day window, the Sentry `ps_min`, the close-approach date, distance and limit filters, the NeoWs date strings) are not modelled. NeoWs passes its range as two day numbers.
- `float()` on a JSON value is an oracle. `PyText.Cell` carries the number a string would give, or none when `float()` raises; JSON values of other types are not modelled.
- `datetime.fromisoformat`, `strftime`, `isoformat` and timezone normalisation are left out; times are integer seconds and an unreadable time is `None`.
- The `asyncio.Lock` and `asyncio.sleep` of the rate limiter are left out: waiting is modelled as the clock moving to the deadline, and calls do not interleave.
- The degraded and warning thresholds of the rate limiter (const.py lines 76-77) only choose a log level; logging is left out everywhere.
- The Home Assistant entities, config flow, setup, diagnostics and the picture-of-the-day coordinator are not part of this model.
- Services: the stored data of a config entry is taken to be a non-empty dict, so the "entry not found" test fails only for a missing entry. `async_request_refresh` is modelled as the list of coordinator names asked to refresh, in order.
- Services.CalculatePasses: the `hours` argument is read but never used, so it is not modelled.
- PyText.IsSpace: only the ASCII and Latin-1 white-space characters are stripped; Python's `str.strip()` and `int()` also skip the other Unicode white space (U+2000 to U+200A, U+3000 and the like), which the feeds and headers do not carry in practice.
- PyText.IsDigit: only the ASCII digits are read; Python's `int()` also accepts the other Unicode decimal digits.
- RateLimiter.AfterResponse: every integer reset header sets the reset time; `datetime.fromtimestamp` refusing an out-of-range value (`ValueError`, caught, leaving the reset time as it was, or `OverflowError`/`OSError`, which escape before the 429 counter is reset) is not modelled.
- JSON `null` where the code calls, indexes, compares or iterates a value (a flare's `classType`, a storm's `allKpIndex` or a reading's `kpIndex`, the NeoWs `near_earth_objects`) makes the source raise. In the model a `None` in those fields stands for a missing key, which the source replaces by its default, so those failures are not modelled.
- The 24-hour cache compares the instant of the call with the stored download time; both are seconds, so the sub-second precision of `datetime` is left out.

## Findings

| source | as written | input that shows it | evidently intended | confidence | as-written member | corrected member |
|---|---|---|---|---|---|---|
| custom_components/nasa_sky_hub/coordinators/sky.py:43 | the update first awaits `self.calculator._ensure_eph_loaded(self.hass)`, a method the sky calculator does not define, so it raises `AttributeError`, which becomes `UpdateFailed` | any update | compute the five sky answers (the calculator already loads its ephemeris when it is built) at a time-zone-aware current time; dropping line 43 alone would not do, since line 44 takes a naive `datetime.now()`, which Skyfield's `from_datetime` refuses, as the tracker's own comments note at satellite_tracker.py:90-92 | not executed | SkyCoordinator.SkyCoordinator.UpdateAsWritten | SkyCoordinator.SkyCoordinator.Update |
| custom_components/nasa_sky_hub/api_client.py:54-76 | `record_response`, which zeroes the consecutive-429 counter, runs before `record_429` on a 429 answer, so the counter is always 1 and the back-off always 2 minutes | three consecutive 429 answers: each backs off 2 minutes instead of 2, 4 and 8 | the counter is reset only by answers other than 429, so the back-off escalates 2, 4, 8, 16, 32, 60 minutes | not executed | RateLimiter.RequestAsWritten | RateLimiter.RequestEscalates |
