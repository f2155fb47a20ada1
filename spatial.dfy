/**
 * The map lookups of core/app_main.py: building the zone and street indexes
 * from GeoJSON features, the zone under a click, the nearest street within a
 * radius, and the location summary read from their properties.
 *
 * Geometry is abstract: `shape` is the GeoJSON-to-geometry conversion (None
 * when it fails), the spatial tree's query is the list of candidate
 * positions it returns, and containment and distance are predicates of the
 * clicked point passed in by the caller.
 */
module Spatial {
  import opened Wrappers
  import opened Props

  /** One indexed feature: its geometry and its properties (`properties or {}`). */
  datatype Entry<S> = Entry(geom: S, props: PropMap)

  /** The entry a raw feature contributes, if its geometry is present and converts. */
  function EntryOf<G, S>(f: Feature<Option<G>>, shape: G -> Option<S>): Option<Entry<S>> {
    if f.geometry.Some? && shape(f.geometry.value).Some? then
      Some(Entry(shape(f.geometry.value).value, f.properties.GetOr(map[])))
    else None
  }

  /** The index built from `features`, in feature order, skipping those without a usable geometry. */
  function IndexEntries<G, S>(features: seq<Feature<Option<G>>>, shape: G -> Option<S>): (idx: seq<Entry<S>>)
    ensures |idx| <= |features|
    ensures forall e :: e in idx ==> exists f :: f in features && EntryOf(f, shape) == Some(e)
  {
    if features == [] then []
    else
      var init := features[..|features| - 1];
      var last := features[|features| - 1];
      var rest := IndexEntries(init, shape);
      assert forall f :: f in init ==> f in features;
      match EntryOf(last, shape)
      case Some(e) => rest + [e]
      case None => rest
  }

  /** Indexing a concatenation indexes each part: features are kept or skipped independently. */
  lemma {:induction false} IndexEntriesAppend<G, S>(a: seq<Feature<Option<G>>>, b: seq<Feature<Option<G>>>, shape: G -> Option<S>)
    ensures IndexEntries(a + b, shape) == IndexEntries(a, shape) + IndexEntries(b, shape)
    decreases |b|
  {
    if b == [] {
      assert a + b == a;
    } else {
      var b0 := b[..|b| - 1];
      assert (a + b)[..|a + b| - 1] == a + b0;
      assert (a + b)[|a + b| - 1] == b[|b| - 1];
      IndexEntriesAppend(a, b0, shape);
    }
  }

  /** When every geometry converts, the index keeps every feature at its own position. */
  lemma {:induction false} IndexKeepsAllWhenValid<G, S>(features: seq<Feature<Option<G>>>, shape: G -> Option<S>)
    requires forall i :: 0 <= i < |features| ==> EntryOf(features[i], shape).Some?
    ensures |IndexEntries(features, shape)| == |features|
    ensures forall i :: 0 <= i < |features| ==> IndexEntries(features, shape)[i] == EntryOf(features[i], shape).value
  {
    if features != [] {
      var init := features[..|features| - 1];
      var last := features[|features| - 1];
      IndexKeepsAllWhenValid(init, shape);
      var idx, rest := IndexEntries(features, shape), IndexEntries(init, shape);
      assert idx == rest + [EntryOf(last, shape).value];
      forall i | 0 <= i < |features|
        ensures idx[i] == EntryOf(features[i], shape).value
      {
        if i < |init| {
          assert init[i] == features[i];
          assert idx[i] == rest[i];
        }
      }
    }
  }

  /** `build_zone_index`: walks the features, appending each usable geometry and its properties. */
  method BuildIndex<G, S>(features: seq<Feature<Option<G>>>, shape: G -> Option<S>) returns (idx: seq<Entry<S>>)
    ensures idx == IndexEntries(features, shape)
  {
    idx := [];
    for k := 0 to |features|
      invariant idx == IndexEntries(features[..k], shape)
    {
      assert features[..k + 1][..k] == features[..k];
      var f := features[k];
      if f.geometry.Some? {
        var g := shape(f.geometry.value);
        if g.Some? {
          idx := idx + [Entry(g.value, f.properties.GetOr(map[]))];
        }
      }
    }
    assert features[..|features|] == features;
  }

  /** A street geometry converted and then projected to metres. */
  function Projected<G, S>(shape: G -> Option<S>, project: S -> S): G -> Option<S> {
    g => if shape(g).Some? then Some(project(shape(g).value)) else None
  }

  /** `build_ruas_index`: the same walk, projecting each geometry to metric coordinates. */
  method BuildStreetIndex<G, S>(features: seq<Feature<Option<G>>>, shape: G -> Option<S>, project: S -> S)
    returns (idx: seq<Entry<S>>)
    ensures idx == IndexEntries(features, Projected(shape, project))
    ensures forall i :: 0 <= i < |idx| ==>
              (exists f :: f in features && f.geometry.Some?
                 && shape(f.geometry.value).Some? && idx[i].geom == project(shape(f.geometry.value).value))
  {
    idx := BuildIndex(features, Projected(shape, project));
    forall i | 0 <= i < |idx|
      ensures exists f :: f in features && f.geometry.Some?
                && shape(f.geometry.value).Some? && idx[i].geom == project(shape(f.geometry.value).value)
    {
      assert idx[i] in idx;
    }
  }

  /** A candidate position the lookup accepts: inside the index and covering the point. */
  predicate Covers<S>(index: seq<Entry<S>>, i: nat, covers: S -> bool) {
    i < |index| && covers(index[i].geom)
  }

  /** The first candidate, in query order, whose geometry covers the point. */
  function FirstCovering<S>(index: seq<Entry<S>>, candidates: seq<nat>, covers: S -> bool): (r: Option<PropMap>)
    ensures r.Some? ==> exists j :: 0 <= j < |candidates| && Covers(index, candidates[j], covers)
                                   && r.value == index[candidates[j]].props
                                   && forall j' :: 0 <= j' < j ==> !Covers(index, candidates[j'], covers)
    ensures r.None? <==> forall j :: 0 <= j < |candidates| ==> !Covers(index, candidates[j], covers)
  {
    if candidates == [] then None
    else if Covers(index, candidates[0], covers) then Some(index[candidates[0]].props)
    else
      var r := FirstCovering(index, candidates[1..], covers);
      assert forall j :: 1 <= j < |candidates| ==> candidates[j] == candidates[1..][j - 1];
      r
  }

  /** The zone under the click: none without an index, else the first covering candidate. */
  function ZoneHit<S>(index: seq<Entry<S>>, candidates: seq<nat>, covers: S -> bool): Option<PropMap> {
    if |index| == 0 then None else FirstCovering(index, candidates, covers)
  }

  /**
   * `find_zone_for_click`: with no index there is no zone; otherwise the
   * candidates are tried in order and the first that covers the point
   * (contained in or touching its polygon) gives the zone's properties;
   * a candidate outside the index is skipped.
   */
  method FindZoneForClick<S>(index: seq<Entry<S>>, candidates: seq<nat>, covers: S -> bool) returns (r: Option<PropMap>)
    ensures r == ZoneHit(index, candidates, covers)
    ensures |index| == 0 ==> r.None?
    ensures r.Some? ==> exists i :: 0 <= i < |index| && covers(index[i].geom) && r.value == index[i].props
  {
    if |index| == 0 {
      return None;
    }
    for k := 0 to |candidates|
      invariant FirstCovering(index, candidates, covers) == FirstCovering(index, candidates[k..], covers)
    {
      assert candidates[k..][1..] == candidates[k + 1..];
      var i := candidates[k];
      if i < |index| && covers(index[i].geom) {
        return Some(index[i].props);
      }
    }
    return None;
  }

  /**
   * When the query returns every entry that covers the point (the spatial
   * tree's promise), the lookup finds a zone exactly when some zone covers
   * the click.
   */
  lemma ZoneHitComplete<S>(index: seq<Entry<S>>, candidates: seq<nat>, covers: S -> bool)
    requires forall i :: 0 <= i < |index| && covers(index[i].geom) ==> i in candidates
    ensures ZoneHit(index, candidates, covers).None? <==> forall i :: 0 <= i < |index| ==> !covers(index[i].geom)
  {
  }

  /** When exactly one zone covers the click and the query returns it, that zone is the answer. */
  lemma UniqueZoneFound<S>(index: seq<Entry<S>>, candidates: seq<nat>, covers: S -> bool, z: nat)
    requires z < |index| && covers(index[z].geom) && z in candidates
    requires forall i :: 0 <= i < |index| && i != z ==> !covers(index[i].geom)
    ensures ZoneHit(index, candidates, covers) == Some(index[z].props)
  {
    var j :| 0 <= j < |candidates| && candidates[j] == z;
    assert Covers(index, candidates[j], covers);
  }

  /** The default search radius of the street lookup, in metres. */
  const DefaultStreetRadius: real := 120.0

  /**
   * `find_nearest_street`: the spatial tree's nearest entry (`nearest`, a
   * position), kept only if it lies within `maxDist` metres; no index, no
   * nearest entry or a position outside the index give none.
   */
  function NearestStreet<S>(index: seq<Entry<S>>, nearest: Option<nat>, distance: S -> real, maxDist: real): (r: Option<PropMap>)
    ensures r.Some? <==> |index| > 0 && nearest.Some? && nearest.value < |index|
                         && distance(index[nearest.value].geom) <= maxDist
    ensures r.Some? ==> r.value == index[nearest.value].props
  {
    if |index| == 0 || nearest.None? then None
    else
      var i := nearest.value;
      if i >= |index| then None
      else if distance(index[i].geom) > maxDist then None
      else Some(index[i].props)
  }

  /** Widening the radius never loses a street, and the street found stays the same. */
  lemma StreetRadiusMonotone<S>(index: seq<Entry<S>>, nearest: Option<nat>, distance: S -> real, r1: real, r2: real)
    requires r1 <= r2 && NearestStreet(index, nearest, distance, r1).Some?
    ensures NearestStreet(index, nearest, distance, r2) == NearestStreet(index, nearest, distance, r1)
  {
  }

  /** The location summary of a click (`zona_sigla`, `zona_nome`, `rua_nome`, `hierarquia` and the raw properties). */
  datatype Location = Location(zoneCode: string, zoneName: string, streetName: string, hierarchy: string,
                               rawZone: PropMap, rawStreet: PropMap)

  const ZoneCodeKeys: seq<string> := ["sigla", "SIGLA", "zona_sigla", "ZONA_SIGLA", "name"]
  const ZoneNameKeys: seq<string> := ["zona", "ZONA", "nome", "NOME"]
  const StreetNameKeys: seq<string> := ["log_ofic", "LOG_OFIC", "name", "NOME"]
  const HierarchyKeys: seq<string> := ["hierarquia", "HIERARQUIA"]

  /** The summary read from the zone and street found (missing ones read as `{}`). */
  function LocationOf(zone: Option<PropMap>, street: Option<PropMap>, show: Value -> string): (loc: Location)
    ensures loc.rawZone == zone.GetOr(map[]) && loc.rawStreet == street.GetOr(map[])
    ensures loc.zoneCode == GetProp(zone.GetOr(map[]), ZoneCodeKeys, show)
    ensures loc.zoneName == GetProp(zone.GetOr(map[]), ZoneNameKeys, show)
    ensures loc.streetName == GetProp(street.GetOr(map[]), StreetNameKeys, show)
    ensures loc.hierarchy == GetProp(street.GetOr(map[]), HierarchyKeys, show)
    ensures zone.None? ==> loc.zoneCode == "" && loc.zoneName == ""
    ensures street.None? ==> loc.streetName == "" && loc.hierarchy == ""
    ensures zone.Some? && Filled(zone.value, "sigla") ==> loc.zoneCode == show(zone.value["sigla"])
    ensures street.Some? && Filled(street.value, "log_ofic") ==> loc.streetName == show(street.value["log_ofic"])
    ensures street.Some? && Filled(street.value, "hierarquia") ==> loc.hierarchy == show(street.value["hierarquia"])
  {
    var z := zone.GetOr(map[]);
    var s := street.GetOr(map[]);
    assert forall i :: 0 <= i < |ZoneCodeKeys| ==> !Filled(map[], ZoneCodeKeys[i]);
    assert forall i :: 0 <= i < |ZoneNameKeys| ==> !Filled(map[], ZoneNameKeys[i]);
    assert forall i :: 0 <= i < |StreetNameKeys| ==> !Filled(map[], StreetNameKeys[i]);
    assert forall i :: 0 <= i < |HierarchyKeys| ==> !Filled(map[], HierarchyKeys[i]);
    assert ZoneCodeKeys[0] == "sigla" && StreetNameKeys[0] == "log_ofic" && HierarchyKeys[0] == "hierarquia";
    Location(GetProp(z, ZoneCodeKeys, show), GetProp(z, ZoneNameKeys, show),
             GetProp(s, StreetNameKeys, show), GetProp(s, HierarchyKeys, show), z, s)
  }

  /**
   * Each summary field is "" exactly when nothing was found or the mapping found
   * fills none of the field's aliases (given that `str()` of a filled value is
   * never empty).
   */
  lemma LocationFieldsFound(zone: Option<PropMap>, street: Option<PropMap>, show: Value -> string)
    requires forall v :: v != Null && v != Str("") ==> show(v) != ""
    ensures var loc := LocationOf(zone, street, show);
            && (loc.zoneCode == "" <==> zone.None? || !AnyFilled(zone.value, ZoneCodeKeys))
            && (loc.zoneName == "" <==> zone.None? || !AnyFilled(zone.value, ZoneNameKeys))
            && (loc.streetName == "" <==> street.None? || !AnyFilled(street.value, StreetNameKeys))
            && (loc.hierarchy == "" <==> street.None? || !AnyFilled(street.value, HierarchyKeys))
  {
    var z, s := zone.GetOr(map[]), street.GetOr(map[]);
    GetPropEmptyIffNoneFilled(z, ZoneCodeKeys, show);
    GetPropEmptyIffNoneFilled(z, ZoneNameKeys, show);
    GetPropEmptyIffNoneFilled(s, StreetNameKeys, show);
    GetPropEmptyIffNoneFilled(s, HierarchyKeys, show);
  }

  /** `compute_location`: the zone under the click and the nearest street within 120 m, summarised. */
  method ComputeLocation<S>(zones: seq<Entry<S>>, zoneCandidates: seq<nat>, covers: S -> bool,
                            streets: seq<Entry<S>>, nearest: Option<nat>, distance: S -> real,
                            show: Value -> string) returns (loc: Location)
    ensures loc == LocationOf(ZoneHit(zones, zoneCandidates, covers),
                              NearestStreet(streets, nearest, distance, DefaultStreetRadius), show)
  {
    var zone := FindZoneForClick(zones, zoneCandidates, covers);
    var street := NearestStreet(streets, nearest, distance, DefaultStreetRadius);
    loc := LocationOf(zone, street, show);
  }
}
