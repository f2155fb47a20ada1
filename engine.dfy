/**
 * The geographic engine of parking_v2.py: zones and streets loaded once into
 * parallel lists, the zone containing a click (spatial-tree candidates first,
 * then every zone in order), the nearest street (nearest among the
 * candidates, every street when there are none) within a radius, and the
 * location summary.
 *
 * Geometry is abstract as in the app's own lookups: the tree's query is the
 * list of candidate positions it returns, and containment and distance (in
 * metres, after projection) are functions of the clicked point.
 */
module Engine {
  import opened Wrappers
  import opened Props

  /** The geometries of `features`, in order. */
  function Geometries<S>(features: seq<Feature<S>>): (gs: seq<S>)
    ensures |gs| == |features| && forall i :: 0 <= i < |features| ==> gs[i] == features[i].geometry
  {
    if features == [] then [] else [features[0].geometry] + Geometries(features[1..])
  }

  /** The property mappings of `features` (`f.get("properties", {})`), in order. */
  function PropertyMaps<S>(features: seq<Feature<S>>): (ps: seq<PropMap>)
    ensures |ps| == |features| && forall i :: 0 <= i < |features| ==> ps[i] == features[i].properties.GetOr(map[])
  {
    if features == [] then [] else [features[0].properties.GetOr(map[])] + PropertyMaps(features[1..])
  }

  /** The positions 0 .. n-1, the order of a full scan. */
  function Positions(n: nat): (ps: seq<nat>)
    ensures |ps| == n && forall i :: 0 <= i < n ==> ps[i] == i
  {
    seq(n, i => i)
  }

  /** The search radius `compute_location` uses, in metres. */
  const LocationRadius: real := 120.0

  /** The key under which the distance to the street is added to its properties. */
  const DistanceKey: string := "_dist_m"

  /** A location summary: the alias lookups (None when missing) and the raw properties found. */
  datatype EngineLocation = EngineLocation(zoneCode: Value, zoneName: Value, streetName: Value, hierarchy: Value,
                                           rawZone: Option<PropMap>, rawStreet: Option<PropMap>)

  const ZoneCodeAliases: seq<string> := ["sigla", "SIGLA"]
  const ZoneNameAliases: seq<string> := ["zona", "nome", "NOME", "ZONA"]
  const StreetNameAliases: seq<string> := ["log_ofic", "LOG_OFIC", "nome", "NOME"]
  const HierarchyAliases: seq<string> := ["hierarquia", "HIERARQUIA"]

  /** The summary of a zone and a street found (`_safe_get` over `raw or {}` with default None). */
  function Summary(zone: Option<PropMap>, street: Option<PropMap>): (loc: EngineLocation)
    ensures loc.rawZone == zone && loc.rawStreet == street
    ensures loc.zoneCode == SafeGet(zone.GetOr(map[]), ZoneCodeAliases, Null)
    ensures loc.zoneName == SafeGet(zone.GetOr(map[]), ZoneNameAliases, Null)
    ensures loc.streetName == SafeGet(street.GetOr(map[]), StreetNameAliases, Null)
    ensures loc.hierarchy == SafeGet(street.GetOr(map[]), HierarchyAliases, Null)
    ensures zone.None? ==> loc.zoneCode == Null && loc.zoneName == Null
    ensures street.None? ==> loc.streetName == Null && loc.hierarchy == Null
    ensures zone.Some? && Filled(zone.value, "sigla") ==> loc.zoneCode == zone.value["sigla"]
    ensures zone.Some? && !Filled(zone.value, "sigla") && Filled(zone.value, "SIGLA") ==> loc.zoneCode == zone.value["SIGLA"]
    ensures street.Some? && Filled(street.value, "log_ofic") ==> loc.streetName == street.value["log_ofic"]
    ensures street.Some? && Filled(street.value, "hierarquia") ==> loc.hierarchy == street.value["hierarquia"]
  {
    var z := zone.GetOr(map[]);
    var s := street.GetOr(map[]);
    assert forall i :: 0 <= i < |ZoneCodeAliases| ==> !Filled(map[], ZoneCodeAliases[i]);
    assert forall i :: 0 <= i < |ZoneNameAliases| ==> !Filled(map[], ZoneNameAliases[i]);
    assert forall i :: 0 <= i < |StreetNameAliases| ==> !Filled(map[], StreetNameAliases[i]);
    assert forall i :: 0 <= i < |HierarchyAliases| ==> !Filled(map[], HierarchyAliases[i]);
    assert ZoneCodeAliases[0] == "sigla" && ZoneCodeAliases[1] == "SIGLA";
    assert StreetNameAliases[0] == "log_ofic" && HierarchyAliases[0] == "hierarquia";
    EngineLocation(SafeGet(z, ZoneCodeAliases, Null), SafeGet(z, ZoneNameAliases, Null),
                   SafeGet(s, StreetNameAliases, Null), SafeGet(s, HierarchyAliases, Null), zone, street)
  }

  /**
   * Each summary field is None exactly when nothing was found or the mapping
   * found fills none of the field's aliases; otherwise it is the value of the
   * first filled alias.
   */
  lemma SummaryFieldsFound(zone: Option<PropMap>, street: Option<PropMap>)
    ensures var loc := Summary(zone, street);
            && (loc.zoneCode != Null <==> zone.Some? && AnyFilled(zone.value, ZoneCodeAliases))
            && (loc.zoneName != Null <==> zone.Some? && AnyFilled(zone.value, ZoneNameAliases))
            && (loc.streetName != Null <==> street.Some? && AnyFilled(street.value, StreetNameAliases))
            && (loc.hierarchy != Null <==> street.Some? && AnyFilled(street.value, HierarchyAliases))
  {
    var z, s := zone.GetOr(map[]), street.GetOr(map[]);
    SafeGetFoundIffFilled(z, ZoneCodeAliases);
    SafeGetFoundIffFilled(z, ZoneNameAliases);
    SafeGetFoundIffFilled(s, StreetNameAliases);
    SafeGetFoundIffFilled(s, HierarchyAliases);
  }

  class GeoEngine<S> {
    const zoneGeoms: seq<S>
    const zoneProps: seq<PropMap>
    const streetGeoms: seq<S>
    const streetProps: seq<PropMap>

    /** The lists are parallel: one geometry and one property mapping per feature. */
    ghost predicate Valid() {
      |zoneGeoms| == |zoneProps| && |streetGeoms| == |streetProps|
    }

    /**
     * `GeoEngine(zone_file, streets_file)` over the already parsed features:
     * every zone and street is kept, in file order; street geometries are
     * projected to metres.
     */
    constructor(zones: seq<Feature<S>>, streets: seq<Feature<S>>, project: S -> S)
      ensures Valid()
      ensures zoneGeoms == Geometries(zones) && zoneProps == PropertyMaps(zones)
      ensures |streetGeoms| == |streets| && streetProps == PropertyMaps(streets)
      ensures forall i :: 0 <= i < |streets| ==> streetGeoms[i] == project(streets[i].geometry)
    {
      zoneGeoms := Geometries(zones);
      zoneProps := PropertyMaps(zones);
      var gs := Geometries(streets);
      streetGeoms := seq(|gs|, i requires 0 <= i < |gs| => project(gs[i]));
      streetProps := PropertyMaps(streets);
    }

    /** Zone `i` exists and contains the point. */
    predicate ZoneContains(i: nat, contains: S -> bool) {
      i < |zoneGeoms| && contains(zoneGeoms[i])
    }

    /** The first position in `order` whose zone contains the point. */
    function FirstContaining(order: seq<nat>, contains: S -> bool): (r: Option<nat>)
      ensures r.Some? ==> ZoneContains(r.value, contains) && r.value in order
      ensures r.Some? ==> exists k :: 0 <= k < |order| && order[k] == r.value
                                      && forall j :: 0 <= j < k ==> !ZoneContains(order[j], contains)
      ensures r.None? <==> forall j :: 0 <= j < |order| ==> !ZoneContains(order[j], contains)
    {
      if order == [] then None
      else if ZoneContains(order[0], contains) then Some(order[0])
      else
        var r := FirstContaining(order[1..], contains);
        assert forall j :: 1 <= j < |order| ==> order[j] == order[1..][j - 1];
        assert r.Some? ==> exists k :: 0 <= k < |order| && order[k] == r.value
                                        && forall j :: 0 <= j < k ==> !ZoneContains(order[j], contains) by {
          if r.Some? {
            var k :| 0 <= k < |order[1..]| && order[1..][k] == r.value
                     && forall j :: 0 <= j < k ==> !ZoneContains(order[1..][j], contains);
            assert order[k + 1] == r.value;
          }
        }
        r
    }

    /** The zone chosen: the first containing candidate, else the first containing zone in list order. */
    function ZoneFor(candidates: seq<nat>, contains: S -> bool): (r: Option<nat>)
      ensures r.Some? ==> ZoneContains(r.value, contains)
      ensures r.None? <==> forall i :: 0 <= i < |zoneGeoms| ==> !contains(zoneGeoms[i])
    {
      var c := FirstContaining(candidates, contains);
      if c.Some? then c
      else
        var ps := Positions(|zoneGeoms|);
        var all := FirstContaining(ps, contains);
        assert forall i :: 0 <= i < |zoneGeoms| ==> ps[i] == i && (ZoneContains(ps[i], contains) <==> contains(zoneGeoms[i]));
        all
    }

    /**
     * `find_zone_for_click`: the candidates in query order, then every zone in
     * list order; the properties of the first that contains the point.
     */
    method FindZoneForClick(candidates: seq<nat>, contains: S -> bool) returns (r: Option<PropMap>)
      requires Valid()
      ensures ZoneFor(candidates, contains).None? ==> r.None?
      ensures ZoneFor(candidates, contains).Some? ==> r == Some(zoneProps[ZoneFor(candidates, contains).value])
    {
      for k := 0 to |candidates|
        invariant FirstContaining(candidates, contains) == FirstContaining(candidates[k..], contains)
      {
        assert candidates[k..][1..] == candidates[k + 1..];
        var idx := candidates[k];
        if idx < |zoneGeoms| && contains(zoneGeoms[idx]) {
          return Some(zoneProps[idx]);
        }
      }
      ghost var all := Positions(|zoneGeoms|);
      for i := 0 to |zoneGeoms|
        invariant FirstContaining(all, contains) == FirstContaining(all[i..], contains)
      {
        assert all[i..][1..] == all[i + 1..];
        if contains(zoneGeoms[i]) {
          return Some(zoneProps[i]);
        }
      }
      return None;
    }

    /** Whichever zone the scan picks, a zone is found exactly when one contains the point. */
    lemma ZoneFoundIffContained(candidates: seq<nat>, contains: S -> bool)
      ensures ZoneFor(candidates, contains).Some? <==> exists i :: 0 <= i < |zoneGeoms| && contains(zoneGeoms[i])
    {
    }

    /** With non-overlapping zones the answer is the one zone that contains the point, whatever the query returned. */
    lemma UniqueZoneChosen(candidates: seq<nat>, contains: S -> bool, z: nat)
      requires z < |zoneGeoms| && contains(zoneGeoms[z])
      requires forall i :: 0 <= i < |zoneGeoms| && i != z ==> !contains(zoneGeoms[i])
      ensures ZoneFor(candidates, contains) == Some(z)
    {
    }

    /** Every position in `order` is a street. */
    predicate AllStreets(order: seq<nat>) {
      forall j :: 0 <= j < |order| ==> order[j] < |streetGeoms|
    }

    /**
     * The nearest street among `order` and its distance: a later street
     * replaces the current best only when strictly closer, so ties keep the
     * earliest.
     */
    function Closest(order: seq<nat>, distance: S -> real): (r: Option<(nat, real)>)
      requires AllStreets(order)
      ensures r.None? <==> order == []
      ensures r.Some? ==> r.value.0 in order && r.value.0 < |streetGeoms| && r.value.1 == distance(streetGeoms[r.value.0])
      ensures r.Some? ==> forall j :: 0 <= j < |order| ==> r.value.1 <= distance(streetGeoms[order[j]])
      ensures r.Some? ==> exists k :: 0 <= k < |order| && order[k] == r.value.0
                                      && forall j :: 0 <= j < k ==> distance(streetGeoms[order[j]]) > r.value.1
    {
      if order == [] then None
      else
        var init := order[..|order| - 1];
        var i := order[|order| - 1];
        var d := distance(streetGeoms[i]);
        var prev := Closest(init, distance);
        assert forall j :: 0 <= j < |init| ==> init[j] == order[j];
        if prev.None? || d < prev.value.1 then
          assert forall j :: 0 <= j < |order| - 1 ==> distance(streetGeoms[order[j]]) > d;
          Some((i, d))
        else
          var k :| 0 <= k < |init| && init[k] == prev.value.0
                   && forall j :: 0 <= j < k ==> distance(streetGeoms[init[j]]) > prev.value.1;
          prev
    }

    /** The streets `find_nearest_street` compares: the candidates, or every street when there are none. */
    function ScanOrder(candidates: seq<nat>): (order: seq<nat>)
      requires AllStreets(candidates)
      ensures AllStreets(order)
      ensures candidates != [] ==> order == candidates
      ensures candidates == [] ==> order == Positions(|streetGeoms|)
    {
      if candidates != [] then candidates else Positions(|streetGeoms|)
    }

    /**
     * The street chosen: nearest among the candidates, or among every street
     * when there are no candidates; none beyond `maxDist`. The properties are
     * copied and the distance added under `_dist_m`.
     */
    function StreetFor(candidates: seq<nat>, distance: S -> real, maxDist: real): (r: Option<PropMap>)
      requires Valid() && AllStreets(candidates)
      ensures r.Some? ==> exists i :: 0 <= i < |streetGeoms| && distance(streetGeoms[i]) <= maxDist
                                       && r.value == streetProps[i][DistanceKey := Num(distance(streetGeoms[i]))]
      ensures r.Some? ==> DistanceKey in r.value && r.value[DistanceKey].Num?
                          && forall j :: 0 <= j < |candidates| ==> r.value[DistanceKey].r <= distance(streetGeoms[candidates[j]])
      ensures r.Some? ==> var b := Closest(ScanOrder(candidates), distance);
                          b.Some? && b.value.1 <= maxDist && r.value == streetProps[b.value.0][DistanceKey := Num(b.value.1)]
      ensures candidates != [] ==> (r.None? <==> forall j :: 0 <= j < |candidates| ==> distance(streetGeoms[candidates[j]]) > maxDist)
      ensures candidates == [] ==> (r.None? <==> forall i :: 0 <= i < |streetGeoms| ==> distance(streetGeoms[i]) > maxDist)
    {
      var order := ScanOrder(candidates);
      var best := Closest(order, distance);
      assert candidates == [] && best.Some? ==> forall i :: 0 <= i < |streetGeoms| ==> best.value.1 <= distance(streetGeoms[i]) by {
        if candidates == [] && best.Some? {
          forall i | 0 <= i < |streetGeoms| ensures best.value.1 <= distance(streetGeoms[i]) {
            assert order[i] == i;
          }
        }
      }
      if best.None? || best.value.1 > maxDist then None
      else
        Some(streetProps[best.value.0][DistanceKey := Num(best.value.1)])
    }

    /** One pass of `find_nearest_street`: keep the strictly closest street of `order`, starting from none (infinity). */
    method NearestAmong(order: seq<nat>, distance: S -> real) returns (bestIdx: Option<nat>, bestD: Option<real>)
      requires AllStreets(order)
      ensures bestIdx.Some? <==> bestD.Some?
      ensures Closest(order, distance) == (if bestIdx.Some? then Some((bestIdx.value, bestD.value)) else None)
    {
      bestIdx, bestD := None, None;
      for k := 0 to |order|
        invariant bestIdx.Some? <==> bestD.Some?
        invariant Closest(order[..k], distance) == (if bestIdx.Some? then Some((bestIdx.value, bestD.value)) else None)
      {
        assert order[..k + 1][..k] == order[..k];
        var d := distance(streetGeoms[order[k]]);
        if bestD.None? || d < bestD.value {
          bestD := Some(d);
          bestIdx := Some(order[k]);
        }
      }
      assert order[..|order|] == order;
    }

    /**
     * `find_nearest_street`: a pass over the candidates keeping the strictly
     * closest, a pass over every street when that found nothing, and no
     * result beyond `maxDist`.
     */
    method FindNearestStreet(candidates: seq<nat>, distance: S -> real, maxDist: real) returns (r: Option<PropMap>)
      requires Valid() && AllStreets(candidates)
      ensures r == StreetFor(candidates, distance, maxDist)
    {
      var bestIdx, bestD := NearestAmong(candidates, distance);
      if bestIdx.None? {
        bestIdx, bestD := NearestAmong(Positions(|streetGeoms|), distance);
      }
      if bestIdx.None? || bestD.value > maxDist {
        return None;
      }
      r := Some(streetProps[bestIdx.value][DistanceKey := Num(bestD.value)]);
    }

    /** Without candidates the street found is the nearest of all streets. */
    lemma FallbackIsNearestOfAll(distance: S -> real, maxDist: real)
      requires Valid()
      ensures var r := StreetFor([], distance, maxDist);
              r.Some? ==> r.value[DistanceKey].Num? && forall i :: 0 <= i < |streetGeoms| ==> r.value[DistanceKey].r <= distance(streetGeoms[i])
    {
      var all := Positions(|streetGeoms|);
      var best := Closest(all, distance);
      if best.Some? {
        forall i | 0 <= i < |streetGeoms| ensures best.value.1 <= distance(streetGeoms[i]) {
          assert all[i] == i;
        }
      }
    }

    /** A larger radius never loses a street, and the street found, with its distance, stays the same. */
    lemma StreetRadiusMonotone(candidates: seq<nat>, distance: S -> real, r1: real, r2: real)
      requires Valid() && AllStreets(candidates)
      requires r1 <= r2 && StreetFor(candidates, distance, r1).Some?
      ensures StreetFor(candidates, distance, r2) == StreetFor(candidates, distance, r1)
    {
    }

    /**
     * `compute_location`: the zone containing the click and the nearest street
     * within 120 m, summarised.
     */
    method ComputeLocation(zoneCandidates: seq<nat>, contains: S -> bool,
                           streetCandidates: seq<nat>, distance: S -> real) returns (loc: EngineLocation)
      requires Valid() && AllStreets(streetCandidates)
      ensures var z := ZoneFor(zoneCandidates, contains);
              loc == Summary(if z.Some? then Some(zoneProps[z.value]) else None,
                             StreetFor(streetCandidates, distance, LocationRadius))
    {
      var zone := FindZoneForClick(zoneCandidates, contains);
      var street := FindNearestStreet(streetCandidates, distance, LocationRadius);
      loc := Summary(zone, street);
    }
  }
}
