/** The integration's service handlers: refresh every coordinator of a config entry, refresh
    the coordinator of one module, prefetch the picture of the day for a range of days, and the
    pass calculation, which checks its arguments and computes nothing.

    A handler's effect is modelled as what it returns: the coordinators it asked to refresh, in
    order, or the reason it stopped (each such reason is a log line in the source). */
module Services {
  import opened Wrappers
  import opened Dicts

  const Day: int := 86400

  /** A coordinator as the handlers see it: whether it has `async_request_refresh`. */
  datatype Coordinator = Coordinator(canRefresh: bool)

  /** What the integration stores for one config entry; `coordinators` is `None` when missing. */
  datatype EntryData = EntryData(coordinators: Option<Dict<string, Coordinator>>)

  /** Why a handler stopped without acting. */
  datatype Reason =
    | NoConfigEntries | EntryNotFound | NoCoordinators | ModuleRequired | CoordinatorNotFound
    | DatesRequired | InvalidDate | NoradIdRequired

  /** The outcome of a refresh handler: the entry it worked on and the coordinators it asked to
      refresh, in that order. */
  datatype RefreshOutcome = Refreshed(entryId: string, names: seq<string>) | Refused(reason: Reason)

  /** Every stored coordinator map is a dict. */
  ghost predicate DomainValid(domain: map<string, EntryData>) {
    forall id :: id in domain && domain[id].coordinators.Some? ==> domain[id].coordinators.value.Valid()
  }

  /** Python truthiness of an optional string argument. */
  predicate Given(s: Option<string>) {
    s.Some? && s.value != []
  }

  /** The entry a call works on: the one it names, or else the first config entry. */
  function ResolveEntry(entryId: Option<string>, entries: seq<string>): (r: Option<string>)
    ensures r.None? <==> !Given(entryId) && entries == []
    ensures Given(entryId) ==> r == entryId
    ensures !Given(entryId) && entries != [] ==> r == Some(entries[0])
  {
    if Given(entryId) then entryId
    else if entries == [] then None
    else Some(entries[0])
  }

  // ---------------------------------------------------------------- refresh all

  /** The keys of `keys` whose coordinator can be refreshed, in order. */
  function Refreshable(keys: seq<string>, coordinators: map<string, Coordinator>): seq<string>
    requires forall k :: k in keys ==> k in coordinators
  {
    if keys == [] then []
    else
      var init := Refreshable(keys[..|keys| - 1], coordinators);
      var last := keys[|keys| - 1];
      if coordinators[last].canRefresh then init + [last] else init
  }

  /** The refreshed names are exactly the refreshable coordinators, each once. */
  lemma {:induction false} RefreshableFacts(keys: seq<string>, coordinators: map<string, Coordinator>)
    requires forall k :: k in keys ==> k in coordinators
    requires forall i, j :: 0 <= i < j < |keys| ==> keys[i] != keys[j]
    ensures forall n :: n in Refreshable(keys, coordinators) <==> n in keys && coordinators[n].canRefresh
    ensures forall i, j :: 0 <= i < j < |Refreshable(keys, coordinators)| ==>
      Refreshable(keys, coordinators)[i] != Refreshable(keys, coordinators)[j]
  {
    if keys != [] {
      var init := keys[..|keys| - 1];
      var last := keys[|keys| - 1];
      RefreshableFacts(init, coordinators);
      assert forall n :: n in keys <==> n in init || n == last;
      assert last !in init;
    }
  }

  /** `async_refresh_all`. */
  function RefreshAll(entryId: Option<string>, entries: seq<string>, domain: map<string, EntryData>): RefreshOutcome
    requires DomainValid(domain)
  {
    match ResolveEntry(entryId, entries)
    case None => Refused(NoConfigEntries)
    case Some(id) =>
      if id !in domain then Refused(EntryNotFound)
      else
        var coordinators := domain[id].coordinators.GetOr(EmptyDict());
        if coordinators.IsEmpty() then Refused(NoCoordinators)
        else Refreshed(id, Refreshable(coordinators.keys, coordinators.entries))
  }

  /** What `async_refresh_all` does: it stops without entries, without the entry or without
      coordinators; otherwise it refreshes, once each and in the dict's order, exactly the
      coordinators that can be refreshed. */
  lemma RefreshAllFacts(entryId: Option<string>, entries: seq<string>, domain: map<string, EntryData>)
    requires DomainValid(domain)
    ensures var r := RefreshAll(entryId, entries, domain);
      && (r == Refused(NoConfigEntries) <==> ResolveEntry(entryId, entries).None?)
      && (r == Refused(EntryNotFound) <==>
            ResolveEntry(entryId, entries).Some? && ResolveEntry(entryId, entries).value !in domain)
      && (r == Refused(NoCoordinators) <==>
            && ResolveEntry(entryId, entries).Some? && ResolveEntry(entryId, entries).value in domain
            && domain[ResolveEntry(entryId, entries).value].coordinators.GetOr(EmptyDict()).IsEmpty())
      && (ResolveEntry(entryId, entries).Some? && ResolveEntry(entryId, entries).value in domain
          && !domain[ResolveEntry(entryId, entries).value].coordinators.GetOr(EmptyDict()).IsEmpty()
          ==> r.Refreshed?)
      && (r.Refreshed? ==>
        && Some(r.entryId) == ResolveEntry(entryId, entries)
        && r.entryId in domain
        && var coordinators := domain[r.entryId].coordinators.GetOr(EmptyDict());
        && !coordinators.IsEmpty()
        && (forall n :: n in r.names <==> n in coordinators.entries && coordinators.entries[n].canRefresh)
        && (forall i, j :: 0 <= i < j < |r.names| ==> r.names[i] != r.names[j]))
  {
    var resolved := ResolveEntry(entryId, entries);
    if resolved.Some? && resolved.value in domain {
      var coordinators := domain[resolved.value].coordinators.GetOr(EmptyDict());
      RefreshableFacts(coordinators.keys, coordinators.entries);
    }
  }

  /** `async_refresh_all`: the loop over the coordinators. */
  method RefreshAllService(entryId: Option<string>, entries: seq<string>, domain: map<string, EntryData>)
    returns (r: RefreshOutcome)
    requires DomainValid(domain)
    ensures r == RefreshAll(entryId, entries, domain)
  {
    var resolved := ResolveEntry(entryId, entries);
    if resolved.None? {
      return Refused(NoConfigEntries);
    }
    var id := resolved.value;
    if id !in domain {
      return Refused(EntryNotFound);
    }
    var coordinators := domain[id].coordinators.GetOr(EmptyDict());
    if coordinators.IsEmpty() {
      return Refused(NoCoordinators);
    }
    var names: seq<string> := [];
    for i := 0 to |coordinators.keys|
      invariant names == Refreshable(coordinators.keys[..i], coordinators.entries)
    {
      assert coordinators.keys[..i + 1][..i] == coordinators.keys[..i];
      var name := coordinators.keys[i];
      if coordinators.entries[name].canRefresh {
        names := names + [name];
      }
    }
    assert coordinators.keys[..|coordinators.keys|] == coordinators.keys;
    return Refreshed(id, names);
  }

  // ---------------------------------------------------------------- refresh one module

  /** The first of `keys` that starts with `moduleName`. */
  function FirstWithPrefix(keys: seq<string>, moduleName: string): (r: Option<string>)
    ensures r.None? <==> forall i :: 0 <= i < |keys| ==> !(moduleName <= keys[i])
    ensures r.Some? ==> exists i ::
      && 0 <= i < |keys| && keys[i] == r.value && moduleName <= keys[i]
      && forall j :: 0 <= j < i ==> !(moduleName <= keys[j])
  {
    if keys == [] then None
    else if moduleName <= keys[0] then Some(keys[0])
    else
      var r := FirstWithPrefix(keys[1..], moduleName);
      assert forall i :: 1 <= i < |keys| ==> keys[i] == keys[1..][i - 1];
      if r.Some? then
        var i :| 0 <= i < |keys[1..]| && keys[1..][i] == r.value && moduleName <= keys[1..][i]
          && forall j :: 0 <= j < i ==> !(moduleName <= keys[1..][j]);
        assert keys[i + 1] == r.value;
        r
      else r
  }

  /** The coordinator a module name selects: the one of exactly that name, or else the first,
      in the dict's order, whose name starts with it. */
  function FindCoordinator(coordinators: Dict<string, Coordinator>, moduleName: string): (r: Option<string>)
    requires coordinators.Valid()
    ensures r.Some? ==> r.value in coordinators.entries
  {
    if moduleName in coordinators.entries then Some(moduleName) else FirstWithPrefix(coordinators.keys, moduleName)
  }

  /** The selected coordinator exists; an exact name wins, and a prefix match happens only
      when no name is exact; nothing is selected exactly when no name starts with the module
      name. */
  lemma FindCoordinatorFacts(coordinators: Dict<string, Coordinator>, moduleName: string)
    requires coordinators.Valid()
    ensures var r := FindCoordinator(coordinators, moduleName);
      && (moduleName in coordinators.entries ==> r == Some(moduleName))
      && (r.Some? ==> r.value in coordinators.entries && moduleName <= r.value)
      && (r.None? <==> forall k :: k in coordinators.entries ==> !(moduleName <= k))
  {
    var r := FindCoordinator(coordinators, moduleName);
    if r.None? {
      forall k | k in coordinators.entries ensures !(moduleName <= k) {
        var i :| 0 <= i < |coordinators.keys| && coordinators.keys[i] == k;
      }
    }
  }

  /** `async_refresh_module`. */
  function RefreshModule(entryId: Option<string>, moduleName: Option<string>, entries: seq<string>,
                         domain: map<string, EntryData>): RefreshOutcome
    requires DomainValid(domain)
  {
    match ResolveEntry(entryId, entries)
    case None => Refused(NoConfigEntries)
    case Some(id) =>
      if !Given(moduleName) then Refused(ModuleRequired)
      else if id !in domain then Refused(EntryNotFound)
      else
        var coordinators := domain[id].coordinators.GetOr(EmptyDict());
        match FindCoordinator(coordinators, moduleName.value)
        case None => Refused(CoordinatorNotFound)
        case Some(name) => Refreshed(id, if coordinators.entries[name].canRefresh then [name] else [])
  }

  /** What `async_refresh_module` does: without entries or without a module name it refreshes
      nothing; for a known entry it refreshes the coordinator the module name selects when that
      can be refreshed, nothing when it cannot, and reports "not found" exactly when no name
      starts with the module name. It never refreshes more than that one coordinator. */
  lemma RefreshModuleFacts(entryId: Option<string>, moduleName: Option<string>, entries: seq<string>,
                           domain: map<string, EntryData>)
    requires DomainValid(domain)
    ensures var r := RefreshModule(entryId, moduleName, entries, domain);
      && (ResolveEntry(entryId, entries).None? ==> r == Refused(NoConfigEntries))
      && (ResolveEntry(entryId, entries).Some? && !Given(moduleName) ==> r == Refused(ModuleRequired))
      && (ResolveEntry(entryId, entries).Some? && Given(moduleName) && ResolveEntry(entryId, entries).value !in domain
          ==> r == Refused(EntryNotFound))
      && (ResolveEntry(entryId, entries).Some? && Given(moduleName) && ResolveEntry(entryId, entries).value in domain ==>
            var id := ResolveEntry(entryId, entries).value;
            var coordinators := domain[id].coordinators.GetOr(EmptyDict());
            var selected := FindCoordinator(coordinators, moduleName.value);
            && (r == Refused(CoordinatorNotFound) <==> forall k :: k in coordinators.entries ==> !(moduleName.value <= k))
            && (selected.Some? && coordinators.entries[selected.value].canRefresh ==> r == Refreshed(id, [selected.value]))
            && (selected.Some? && !coordinators.entries[selected.value].canRefresh ==> r == Refreshed(id, [])))
      && (r.Refreshed? ==>
        && Given(moduleName)
        && Some(r.entryId) == ResolveEntry(entryId, entries)
        && r.entryId in domain
        && var coordinators := domain[r.entryId].coordinators.GetOr(EmptyDict());
        && |r.names| <= 1
        && (forall n :: n in r.names ==>
              && Some(n) == FindCoordinator(coordinators, moduleName.value)
              && n in coordinators.entries && coordinators.entries[n].canRefresh
              && moduleName.value <= n))
      && (r == Refused(CoordinatorNotFound) ==>
            var coordinators := domain[ResolveEntry(entryId, entries).value].coordinators.GetOr(EmptyDict());
            forall k :: k in coordinators.entries ==> !(moduleName.value <= k))
  {
    var resolved := ResolveEntry(entryId, entries);
    if resolved.Some? && Given(moduleName) && resolved.value in domain {
      FindCoordinatorFacts(domain[resolved.value].coordinators.GetOr(EmptyDict()), moduleName.value);
    }
  }

  /** `async_refresh_module`: an exact lookup, then the search for a prefix match that stops
      at the first hit. */
  method RefreshModuleService(entryId: Option<string>, moduleName: Option<string>, entries: seq<string>,
                              domain: map<string, EntryData>) returns (r: RefreshOutcome)
    requires DomainValid(domain)
    ensures r == RefreshModule(entryId, moduleName, entries, domain)
  {
    var resolved := ResolveEntry(entryId, entries);
    if resolved.None? {
      return Refused(NoConfigEntries);
    }
    var id := resolved.value;
    if !Given(moduleName) {
      return Refused(ModuleRequired);
    }
    if id !in domain {
      return Refused(EntryNotFound);
    }
    var coordinators := domain[id].coordinators.GetOr(EmptyDict());
    var found: Option<string> := None;
    if moduleName.value in coordinators.entries {
      found := Some(moduleName.value);
    } else {
      var i := 0;
      while i < |coordinators.keys|
        invariant 0 <= i <= |coordinators.keys|
        invariant FirstWithPrefix(coordinators.keys, moduleName.value) == FirstWithPrefix(coordinators.keys[i..], moduleName.value)
      {
        if moduleName.value <= coordinators.keys[i] {
          found := Some(coordinators.keys[i]);
          break;
        }
        assert coordinators.keys[i..][1..] == coordinators.keys[i + 1..];
        i := i + 1;
      }
    }
    if found.None? {
      return Refused(CoordinatorNotFound);
    }
    var name := found.value;
    return Refreshed(id, if coordinators.entries[name].canRefresh then [name] else []);
  }

  // ---------------------------------------------------------------- prefetch

  /** The instants the prefetch loop visits: `start`, then one day later each time, as long as
      the instant is not after `end`. */
  function PrefetchDays(start: int, end: int): seq<int>
    decreases end - start
  {
    if start > end then [] else [start] + PrefetchDays(start + Day, end)
  }

  /** The loop visits one instant per day of the range, both ends included, and none when the
      range is empty: the i-th is `i` days after `start` and the last lies within a day of
      `end`. */
  lemma {:induction false} PrefetchDaysFacts(start: int, end: int)
    ensures |PrefetchDays(start, end)| == if start > end then 0 else (end - start) / Day + 1
    ensures forall i :: 0 <= i < |PrefetchDays(start, end)| ==>
      PrefetchDays(start, end)[i] == start + i * Day && PrefetchDays(start, end)[i] <= end
    decreases end - start
  {
    if start <= end {
      PrefetchDaysFacts(start + Day, end);
      var rest := PrefetchDays(start + Day, end);
      if start + Day > end {
        assert (end - start) / Day == 0;
      } else {
        assert (end - start) / Day == (end - (start + Day)) / Day + 1;
      }
      forall i | 0 <= i < |PrefetchDays(start, end)|
        ensures PrefetchDays(start, end)[i] == start + i * Day
      {
        if i > 0 {
          assert PrefetchDays(start, end)[i] == rest[i - 1];
        }
      }
    }
  }

  /** The outcome of a prefetch: the days it requested and those whose request failed. */
  datatype PrefetchOutcome = Prefetched(requested: seq<int>, failed: seq<int>) | PrefetchRefused(reason: Reason)

  /** The days of `days` whose request fails. */
  function Failures(days: seq<int>, fetchOk: int -> bool): seq<int> {
    if days == [] then [] else (if fetchOk(days[0]) then [] else [days[0]]) + Failures(days[1..], fetchOk)
  }

  /** `async_prefetch_apod_range`: `parse` is `datetime.fromisoformat` (`None` when it
      raises) and `fetchOk` tells whether the request for an instant succeeds. */
  function Prefetch(entryId: Option<string>, startDate: Option<string>, endDate: Option<string>,
                    domain: map<string, EntryData>, parse: string -> Option<int>, fetchOk: int -> bool): PrefetchOutcome
  {
    if !Given(startDate) || !Given(endDate) then PrefetchRefused(DatesRequired)
    else if entryId.None? || entryId.value !in domain then PrefetchRefused(EntryNotFound)
    else if parse(startDate.value).None? || parse(endDate.value).None? then PrefetchRefused(InvalidDate)
    else
      var days := PrefetchDays(parse(startDate.value).value, parse(endDate.value).value);
      Prefetched(days, Failures(days, fetchOk))
  }

  /** What the prefetch requests does not depend on which requests fail: a failure is noted
      and the walk goes on. */
  lemma PrefetchIgnoresFailures(entryId: Option<string>, startDate: Option<string>, endDate: Option<string>,
                                domain: map<string, EntryData>, parse: string -> Option<int>,
                                fetchOk: int -> bool, fetchOk2: int -> bool)
    ensures Prefetch(entryId, startDate, endDate, domain, parse, fetchOk).Prefetched? ==>
      && Prefetch(entryId, startDate, endDate, domain, parse, fetchOk2).Prefetched?
      && Prefetch(entryId, startDate, endDate, domain, parse, fetchOk).requested ==
           Prefetch(entryId, startDate, endDate, domain, parse, fetchOk2).requested
    ensures var p := Prefetch(entryId, startDate, endDate, domain, parse, fetchOk);
      p.Prefetched? ==> forall d :: d in p.failed <==> d in p.requested && !fetchOk(d)
  {
    var p := Prefetch(entryId, startDate, endDate, domain, parse, fetchOk);
    if p.Prefetched? {
      FailuresMembers(p.requested, fetchOk);
    }
  }

  lemma {:induction false} FailuresMembers(days: seq<int>, fetchOk: int -> bool)
    ensures forall d :: d in Failures(days, fetchOk) <==> d in days && !fetchOk(d)
  {
    if days != [] {
      FailuresMembers(days[1..], fetchOk);
      assert forall d :: d in days <==> d == days[0] || d in days[1..];
    }
  }

  lemma {:induction false} FailuresSnoc(days: seq<int>, d: int, fetchOk: int -> bool)
    ensures Failures(days + [d], fetchOk) == Failures(days, fetchOk) + if fetchOk(d) then [] else [d]
  {
    if days != [] {
      assert (days + [d])[1..] == days[1..] + [d];
      FailuresSnoc(days[1..], d, fetchOk);
    }
  }

  lemma PrefetchStep(requested: seq<int>, current: int, end: int)
    requires current <= end
    ensures requested + PrefetchDays(current, end) == (requested + [current]) + PrefetchDays(current + Day, end)
  {
    assert PrefetchDays(current, end) == [current] + PrefetchDays(current + Day, end);
  }

  /** `async_prefetch_apod_range`: the walk over the days, one request each. */
  method PrefetchService(entryId: Option<string>, startDate: Option<string>, endDate: Option<string>,
                         domain: map<string, EntryData>, parse: string -> Option<int>, fetchOk: int -> bool)
    returns (r: PrefetchOutcome)
    ensures r == Prefetch(entryId, startDate, endDate, domain, parse, fetchOk)
  {
    if !Given(startDate) || !Given(endDate) {
      return PrefetchRefused(DatesRequired);
    }
    if entryId.None? || entryId.value !in domain {
      return PrefetchRefused(EntryNotFound);
    }
    var start := parse(startDate.value);
    var end := parse(endDate.value);
    if start.None? || end.None? {
      return PrefetchRefused(InvalidDate);
    }
    var requested: seq<int> := [];
    var failed: seq<int> := [];
    var current := start.value;
    while current <= end.value
      invariant PrefetchDays(start.value, end.value) == requested + PrefetchDays(current, end.value)
      invariant failed == Failures(requested, fetchOk)
      decreases end.value - current
    {
      PrefetchStep(requested, current, end.value);
      FailuresSnoc(requested, current, fetchOk);
      requested := requested + [current];
      if !fetchOk(current) {
        failed := failed + [current];
      }
      current := current + Day;
    }
    assert requested + PrefetchDays(current, end.value) == requested;
    return Prefetched(requested, failed);
  }

  // ---------------------------------------------------------------- pass calculation

  /** The outcome of the pass calculation: it only checks its arguments. */
  datatype PassOutcome = Accepted | PassRefused(reason: Reason)

  /** `async_calculate_satellite_passes`: a missing (or zero) catalog number and an unknown
      entry are refused; otherwise the call is accepted and nothing is computed. */
  function CalculatePasses(entryId: Option<string>, noradId: Option<int>, domain: map<string, EntryData>): (r: PassOutcome)
    ensures r == PassRefused(NoradIdRequired) <==> noradId.None? || noradId.value == 0
    ensures r == PassRefused(EntryNotFound) <==>
      noradId.Some? && noradId.value != 0 && (entryId.None? || entryId.value !in domain)
    ensures r == Accepted <==> noradId.Some? && noradId.value != 0 && entryId.Some? && entryId.value in domain
  {
    if noradId.None? || noradId.value == 0 then PassRefused(NoradIdRequired)
    else if entryId.None? || entryId.value !in domain then PassRefused(EntryNotFound)
    else Accepted
  }
}
