/** The two asteroid coordinators: Sentry impact risks (the object with the highest cumulative
    Palermo scale) and close approaches (a table decoded by its header, sorted by distance,
    the first ten kept). Neither update raises: every error gives a fallback result.

    The JSON downloads are parameters; a download that fails is `Err`. */
module Asteroids {
  import opened Wrappers
  import opened Sorting
  import opened PyText

  // ---------------------------------------------------------------- Sentry

  /** The value standing for "no risk": the start of the running maximum and the default of a
      missing `ps_cum`. */
  const NoRisk: real := -999.0

  /** A Sentry object; `psCum` is `None` when the field is missing. */
  datatype SentryObject = SentryObject(designation: Cell, psCum: Option<Cell>)

  /** The Sentry summary; `data` is `None` when the field is missing. */
  datatype SentryPayload = SentryPayload(data: Option<seq<SentryObject>>)

  datatype SentryData =
    | SentryData(totalThreats: nat, highestRisk: Option<SentryObject>, maxPalermoScale: real,
                 objects: seq<SentryObject>, lastUpdate: int)
    | SentryFallback(count: nat, threats: seq<SentryObject>, lastUpdate: int, error: Error)

  /** `float(obj.get("ps_cum", "-999"))`. */
  function Palermo(o: SentryObject): Result<real> {
    FloatOr(o.psCum, NoRisk)
  }

  /** The running maximum over `objs` and the object that set it: an object replaces the
      current one only when its value is strictly greater. */
  function Scan(objs: seq<SentryObject>): Result<(real, Option<SentryObject>)> {
    if objs == [] then Ok((NoRisk, None))
    else
      var best :- Scan(objs[..|objs| - 1]);
      var o := objs[|objs| - 1];
      var ps :- Palermo(o);
      Ok(if ps > best.0 then (ps, Some(o)) else best)
  }

  /** A value that cannot be read stops the scan for good, with its error. */
  lemma {:induction false} ScanErrPrefix(objs: seq<SentryObject>, i: nat)
    requires i <= |objs| && Scan(objs[..i]).Err?
    ensures Scan(objs) == Scan(objs[..i])
  {
    if i < |objs| {
      var init := objs[..|objs| - 1];
      assert init[..i] == objs[..i];
      ScanErrPrefix(init, i);
    } else {
      assert objs[..i] == objs;
    }
  }

  /** The loop of the Sentry update: the maximum Palermo value (at least -999) and the first
      object reaching it. */
  method ScanRisk(objs: seq<SentryObject>) returns (r: Result<(real, Option<SentryObject>)>)
    ensures r == Scan(objs)
  {
    var maxPs := NoRisk;
    var highest: Option<SentryObject> := None;
    for i := 0 to |objs|
      invariant Scan(objs[..i]) == Ok((maxPs, highest))
    {
      assert objs[..i + 1][..i] == objs[..i];
      var ps := Palermo(objs[i]);
      if ps.Err? {
        ScanErrPrefix(objs, i + 1);
        return Err(ps.error);
      }
      if ps.value > maxPs {
        maxPs, highest := ps.value, Some(objs[i]);
      }
    }
    assert objs[..|objs|] == objs;
    return Ok((maxPs, highest));
  }

  /** The scan fails exactly when some value cannot be read. Otherwise the maximum is at least
      -999 and no object exceeds it; there is a highest-risk object exactly when some value
      exceeds -999, and it is then the first object with the maximum value. */
  lemma {:induction false} ScanFacts(objs: seq<SentryObject>)
    ensures Scan(objs).Err? <==> exists i :: 0 <= i < |objs| && Palermo(objs[i]).Err?
    ensures Scan(objs).Ok? ==>
      var (m, h) := Scan(objs).value;
      && m >= NoRisk
      && (forall i :: 0 <= i < |objs| ==> Palermo(objs[i]).Ok? && Palermo(objs[i]).value <= m)
      && (h.None? <==> m == NoRisk)
      && (h.Some? ==> exists k ::
        && 0 <= k < |objs| && objs[k] == h.value && Palermo(objs[k]) == Ok(m)
        && (forall j :: 0 <= j < k ==> Palermo(objs[j]).value < m))
  {
    if objs != [] {
      var init := objs[..|objs| - 1];
      var o := objs[|objs| - 1];
      ScanFacts(init);
      assert forall i :: 0 <= i < |init| ==> objs[i] == init[i];
      if Scan(init).Ok? && Palermo(o).Ok? {
        var (m, h) := Scan(init).value;
        if Palermo(o).value > m {
          assert objs[|objs| - 1] == o;
        } else if h.Some? {
          var k :| 0 <= k < |init| && init[k] == h.value && Palermo(init[k]) == Ok(m)
            && (forall j :: 0 <= j < k ==> Palermo(init[j]).value < m);
          assert objs[k] == h.value;
        }
      } else if Scan(init).Err? {
        var i :| 0 <= i < |init| && Palermo(init[i]).Err?;
        assert objs[i] == init[i];
      }
    }
  }

  /** The Sentry update at instant `now`. */
  function SentryReport(payload: Result<SentryPayload>, now: int): SentryData {
    if payload.Err? then SentryFallback(0, [], now, payload.error)
    else
      var objs := payload.value.data.GetOr([]);
      match Scan(objs)
      case Err(e) => SentryFallback(0, [], now, e)
      case Ok((m, h)) => SentryData(|objs|, h, m, objs, now)
  }

  /** `SentryCoordinator._async_update_data` at instant `now`. */
  method SentryUpdate(payload: Result<SentryPayload>, now: int) returns (d: SentryData)
    ensures d == SentryReport(payload, now)
  {
    if payload.Err? {
      return SentryFallback(0, [], now, payload.error);
    }
    var objs := payload.value.data.GetOr([]);
    var scan := ScanRisk(objs);
    if scan.Err? {
      return SentryFallback(0, [], now, scan.error);
    }
    var (m, h) := scan.value;
    return SentryData(|objs|, h, m, objs, now);
  }

  /** What the Sentry update publishes: the fallback (count 0, no threats) exactly when the
      download or a Palermo value fails; otherwise every object, their number, and the maximum
      with the first object reaching it. */
  lemma SentryReportFacts(payload: Result<SentryPayload>, now: int)
    ensures var d := SentryReport(payload, now);
      && (d.SentryFallback? <==> payload.Err? || Scan(payload.value.data.GetOr([])).Err?)
      && (d.SentryFallback? ==> d.count == 0 && d.threats == [] && d.lastUpdate == now)
      && (d.SentryData? ==>
        && d.objects == payload.value.data.GetOr([])
        && d.totalThreats == |d.objects|
        && d.maxPalermoScale >= NoRisk
        && (forall i :: 0 <= i < |d.objects| ==>
              Palermo(d.objects[i]).Ok? && Palermo(d.objects[i]).value <= d.maxPalermoScale)
        && (d.highestRisk.None? <==> d.maxPalermoScale == NoRisk)
        && (d.highestRisk.Some? ==>
              d.highestRisk.value in d.objects && Palermo(d.highestRisk.value) == Ok(d.maxPalermoScale))
        && d.lastUpdate == now)
  {
    if payload.Ok? {
      ScanFacts(payload.value.data.GetOr([]));
    }
  }

  // ---------------------------------------------------------------- close approaches

  /** The close-approach table; `fields` and `data` are `None` when missing. */
  datatype CadPayload = CadPayload(fields: Option<seq<string>>, data: Option<seq<seq<Cell>>>)

  /** One decoded approach; a column that is absent gives `Null` or `None`. */
  datatype Approach = Approach(
    designation: Cell, approachDate: Cell,
    distanceAu: Option<real>, distanceMinAu: Option<real>, distanceMaxAu: Option<real>,
    velocityKmS: Option<real>, absoluteMagnitude: Option<real>)

  datatype CadData =
    | CadData(totalApproaches: nat, nextApproach: Option<Approach>, approaches: seq<Approach>, lastUpdate: int)
    | CadFallback(count: nat, approaches: seq<Approach>, lastUpdate: int, error: Error)

  /** How many approaches the result keeps. */
  const KeptApproaches: nat := 10

  /** `{field: idx for idx, field in enumerate(fields)}`. */
  function FieldMap(fields: seq<string>): map<string, nat> {
    if fields == [] then map[]
    else FieldMap(fields[..|fields| - 1])[fields[|fields| - 1] := |fields| - 1]
  }

  /** The map holds every header name, at the position of its last occurrence. */
  lemma {:induction false} FieldMapFacts(fields: seq<string>)
    ensures forall name :: name in FieldMap(fields) <==> name in fields
    ensures forall name :: name in FieldMap(fields) ==>
      && FieldMap(fields)[name] < |fields| && fields[FieldMap(fields)[name]] == name
      && (forall j :: FieldMap(fields)[name] < j < |fields| ==> fields[j] != name)
  {
    if fields != [] {
      var init := fields[..|fields| - 1];
      FieldMapFacts(init);
      assert fields == init + [fields[|fields| - 1]];
    }
  }

  /** `entry[field_map[name]] if name in field_map else None`. */
  function Column(fm: map<string, nat>, entry: seq<Cell>, name: string): Result<Cell> {
    if name !in fm then Ok(Null)
    else if fm[name] < |entry| then Ok(entry[fm[name]])
    else Err(IndexError)
  }

  /** `float(entry[field_map[name]]) if name in field_map and entry[field_map[name]] else None`. */
  function NumberColumn(fm: map<string, nat>, entry: seq<Cell>, name: string): Result<Option<real>> {
    var c :- Column(fm, entry, name);
    if !Truthy(c) then Ok(None)
    else
      var x :- Float(c);
      Ok(Some(x))
  }

  /** The approach a non-empty row decodes to. */
  function DecodeRow(fm: map<string, nat>, entry: seq<Cell>): Result<Approach> {
    var des :- Column(fm, entry, "des");
    var cd :- Column(fm, entry, "cd");
    var dist :- NumberColumn(fm, entry, "dist");
    var distMin :- NumberColumn(fm, entry, "dist_min");
    var distMax :- NumberColumn(fm, entry, "dist_max");
    var vRel :- NumberColumn(fm, entry, "v_rel");
    var h :- NumberColumn(fm, entry, "h");
    Ok(Approach(des, cd, dist, distMin, distMax, vRel, h))
  }

  /** The rows of `rows` that are not empty, in order. */
  function NonEmptyRows(rows: seq<seq<Cell>>): seq<seq<Cell>> {
    if rows == [] then []
    else NonEmptyRows(rows[..|rows| - 1]) + if rows[|rows| - 1] != [] then [rows[|rows| - 1]] else []
  }

  /** The decoding loop over all rows: empty rows are skipped, every other row gives one
      approach. */
  function DecodeRows(fm: map<string, nat>, rows: seq<seq<Cell>>): Result<seq<Approach>> {
    if rows == [] then Ok([])
    else
      var init :- DecodeRows(fm, rows[..|rows| - 1]);
      var entry := rows[|rows| - 1];
      if entry == [] then Ok(init)
      else
        var a :- DecodeRow(fm, entry);
        Ok(init + [a])
  }

  /** A row that cannot be decoded stops the decoding for good, with its error. */
  lemma {:induction false} DecodeRowsErrPrefix(fm: map<string, nat>, rows: seq<seq<Cell>>, i: nat)
    requires i <= |rows| && DecodeRows(fm, rows[..i]).Err?
    ensures DecodeRows(fm, rows) == DecodeRows(fm, rows[..i])
  {
    if i < |rows| {
      var init := rows[..|rows| - 1];
      assert init[..i] == rows[..i];
      DecodeRowsErrPrefix(fm, init, i);
    } else {
      assert rows[..i] == rows;
    }
  }

  /** Decoding yields one approach per non-empty row, in order, each the decoding of that row,
      and fails exactly when some non-empty row cannot be decoded. */
  lemma {:induction false} DecodeRowsFacts(fm: map<string, nat>, rows: seq<seq<Cell>>)
    ensures DecodeRows(fm, rows).Err? <==>
      exists j :: 0 <= j < |NonEmptyRows(rows)| && DecodeRow(fm, NonEmptyRows(rows)[j]).Err?
    ensures DecodeRows(fm, rows).Ok? ==>
      && |DecodeRows(fm, rows).value| == |NonEmptyRows(rows)|
      && (forall j :: 0 <= j < |NonEmptyRows(rows)| ==>
            DecodeRow(fm, NonEmptyRows(rows)[j]) == Ok(DecodeRows(fm, rows).value[j]))
  {
    if rows != [] {
      var init := rows[..|rows| - 1];
      var entry := rows[|rows| - 1];
      DecodeRowsFacts(fm, init);
      var ni := NonEmptyRows(init);
      var ne := NonEmptyRows(rows);
      assert ne == ni + if entry != [] then [entry] else [];
      if DecodeRows(fm, init).Err? {
        var j :| 0 <= j < |ni| && DecodeRow(fm, ni[j]).Err?;
        assert ne[j] == ni[j];
      } else if entry == [] {
        assert ne == ni;
      } else if DecodeRow(fm, entry).Err? {
        assert ne[|ni|] == entry;
      } else {
        forall j | 0 <= j < |ne| ensures DecodeRow(fm, ne[j]).Ok? {
          if j < |ni| {
            assert ne[j] == ni[j];
          }
        }
      }
    }
  }

  /** A number column: absent from the header it gives `None` for every row; present, the
      cell in the last column of that name gives `None` when null or empty and its number
      otherwise. */
  lemma NumberColumnFacts(fields: seq<string>, entry: seq<Cell>, name: string)
    requires NumberColumn(FieldMap(fields), entry, name).Ok?
    ensures name !in fields ==> NumberColumn(FieldMap(fields), entry, name) == Ok(None)
    ensures name in fields ==> exists i ::
      && 0 <= i < |fields| && i < |entry| && fields[i] == name
      && (forall j :: i < j < |fields| ==> fields[j] != name)
      && (Truthy(entry[i]) ==> Float(entry[i]).Ok?)
      && NumberColumn(FieldMap(fields), entry, name) ==
           Ok(if Truthy(entry[i]) then Some(Float(entry[i]).value) else None)
  {
    FieldMapFacts(fields);
    if name in fields {
      var i := FieldMap(fields)[name];
      assert fields[i] == name;
    }
  }

  /** `x.get("distance_au") or float("inf")`: a missing distance and a distance of exactly 0.0
      (false in Python) both sort last. */
  function DistanceKey(a: Approach): Key {
    if a.distanceAu.Some? && a.distanceAu.value != 0.0 then Finite(a.distanceAu.value) else Infinity
  }

  /** The collection loop of the close-approach update. */
  method CollectApproaches(fm: map<string, nat>, rows: seq<seq<Cell>>) returns (r: Result<seq<Approach>>)
    ensures r == DecodeRows(fm, rows)
  {
    var approaches: seq<Approach> := [];
    for i := 0 to |rows|
      invariant DecodeRows(fm, rows[..i]) == Ok(approaches)
    {
      assert rows[..i + 1][..i] == rows[..i];
      var entry := rows[i];
      if |entry| > 0 {
        var approach := DecodeRow(fm, entry);
        if approach.Err? {
          DecodeRowsErrPrefix(fm, rows, i + 1);
          return Err(approach.error);
        }
        approaches := approaches + [approach.value];
      }
    }
    assert rows[..|rows|] == rows;
    return Ok(approaches);
  }

  /** The close-approach update at instant `now`. */
  function CadReport(payload: Result<CadPayload>, now: int): CadData {
    if payload.Err? then CadFallback(0, [], now, payload.error)
    else
      var fm := FieldMap(payload.value.fields.GetOr([]));
      match DecodeRows(fm, payload.value.data.GetOr([]))
      case Err(e) => CadFallback(0, [], now, e)
      case Ok(approaches) =>
        var sorted := Sort(approaches, DistanceKey);
        CadData(|sorted|, if sorted == [] then None else Some(sorted[0]), TakeFirst(sorted, KeptApproaches), now)
  }

  /** `CADCoordinator._async_update_data` at instant `now`. */
  method CadUpdate(payload: Result<CadPayload>, now: int) returns (d: CadData)
    ensures d == CadReport(payload, now)
  {
    if payload.Err? {
      return CadFallback(0, [], now, payload.error);
    }
    var fm := FieldMap(payload.value.fields.GetOr([]));
    var approaches := CollectApproaches(fm, payload.value.data.GetOr([]));
    if approaches.Err? {
      return CadFallback(0, [], now, approaches.error);
    }
    var sorted := Sort(approaches.value, DistanceKey);
    var next := if sorted == [] then None else Some(sorted[0]);
    return CadData(|sorted|, next, TakeFirst(sorted, KeptApproaches), now);
  }

  /** What the close-approach update publishes when it does not fall back: the count of all
      decoded approaches, at most ten of them in ascending distance order (ties in download
      order), and as the next approach one with the least distance key. */
  lemma CadReportFacts(payload: Result<CadPayload>, now: int)
    ensures var d := CadReport(payload, now);
      && (d.CadFallback? <==>
            payload.Err? || DecodeRows(FieldMap(payload.value.fields.GetOr([])), payload.value.data.GetOr([])).Err?)
      && (d.CadFallback? ==> d.count == 0 && d.approaches == [] && d.lastUpdate == now)
      && (d.CadData? ==>
        var decoded := DecodeRows(FieldMap(payload.value.fields.GetOr([])), payload.value.data.GetOr([])).value;
        && d.totalApproaches == |decoded|
        && |d.approaches| == (if |decoded| <= KeptApproaches then |decoded| else KeptApproaches)
        && SortedBy(d.approaches, DistanceKey)
        && (forall a :: a in d.approaches ==> a in decoded)
        && IsLeast(d.approaches, decoded, DistanceKey)
        && (d.nextApproach.None? <==> decoded == [])
        && (d.nextApproach.Some? ==>
              && d.nextApproach.value in decoded
              && forall a :: a in decoded ==> KeyAtMost(DistanceKey(d.nextApproach.value), DistanceKey(a)))
        && d.lastUpdate == now)
  {
    var d := CadReport(payload, now);
    if d.CadData? {
      var decoded := DecodeRows(FieldMap(payload.value.fields.GetOr([])), payload.value.data.GetOr([])).value;
      SortedApproaches(decoded);
    }
  }

  /** Sorting the decoded approaches by distance and keeping the first ten keeps the ten
      nearest (all of them when there are fewer), in order, with one of the least key first. */
  lemma SortedApproaches(decoded: seq<Approach>)
    ensures var sorted := Sort(decoded, DistanceKey);
      var kept := TakeFirst(sorted, KeptApproaches);
      && |sorted| == |decoded|
      && |kept| == (if |decoded| <= KeptApproaches then |decoded| else KeptApproaches)
      && SortedBy(kept, DistanceKey)
      && (forall a :: a in kept ==> a in decoded)
      && IsLeast(kept, decoded, DistanceKey)
      && (sorted != [] ==>
            && sorted[0] in decoded
            && forall a :: a in decoded ==> KeyAtMost(DistanceKey(sorted[0]), DistanceKey(a)))
  {
    SortTakeFirstSorted(decoded, DistanceKey, KeptApproaches);
    SortTakeFirstIsLeast(decoded, DistanceKey, KeptApproaches);
    if decoded != [] {
      SortFirstIsLeast(decoded, DistanceKey);
    }
  }

  /** The published approaches keep the download order of approaches at the same distance. */
  lemma CadKeepsTiesInOrder(approaches: seq<Approach>, k: Key)
    ensures WithKey(Sort(approaches, DistanceKey), DistanceKey, k) == WithKey(approaches, DistanceKey, k)
  {
    SortIsStable(approaches, DistanceKey, k);
  }
}
