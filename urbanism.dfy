/**
 * The urbanistic calculation of core/app_main.py: `estimate_pavimentos`,
 * `compute_urbanism` (zone ratios times lot area, the setback envelope, the
 * binding ground-floor limit, the two placement options for single-family
 * houses and the older parking fallback) and `build_leigo_simulation`.
 */
module Urbanism {
  import opened Wrappers
  import opened Envelope
  import opened Rounding

  /** The fields of a zone rule record the calculation reads (each may be missing). */
  datatype ZoneRule = ZoneRule(
    toMax: Option<real>, tpMin: Option<real>, iaMin: Option<real>, iaMax: Option<real>, toSubMax: Option<real>,
    frontSetback: Option<real>, lateralSetback: Option<real>, rearSetback: Option<real>,
    heightM: Option<real>, floorsMax: Option<int>)

  /** The lot as the user describes it. */
  datatype Lot = Lot(frontage: real, depth: real, corner: bool, twoFronts: bool, attachOneSide: bool)

  /** `limitante`: the occupancy ratio ("TO"), the setbacks ("Recuos") or the rear setback ("Recuo de fundo"). */
  datatype Limit = ByOccupancy | BySetbacks | ByRearSetback

  /** A placement option of the single-family report. */
  datatype Placement = Placement(front: real, lateral: real, rear: real, core: Core, maxGroundArea: real, limit: Limit)

  /** The placement options: not computed (other uses), failed (a setback missing), or both options. */
  datatype PlacementOptions = NotApplicable | Failed | Built(standard: Placement, art112: Placement)

  /** Kinds of the older parking record (`parking_rules.metric`). */
  datatype UnitAreaRule = UnitAreaRule(threshold: real, rateBelow: real, rateAtOrAbove: real, roundUp: bool)
  /** The defaults the code falls back to for a `per_unit_by_unit_area` rule: 90 m², 1 and 1.5 stalls per unit, rounding up. */
  const DefaultUnitAreaRule := UnitAreaRule(90.0, 1.0, 1.5, true)

  datatype OldMetric = FixedCount | PerUnitCount | PerArea | JsonUnitArea(rule: UnitAreaRule) | OtherMetric

  /** The older parking record: metric, `value or 0`, and `min_vagas`. */
  datatype OldParkRule = OldParkRule(metric: OldMetric, value: real, minStalls: Option<int>)

  /** The fields `compute_urbanism` computes. */
  datatype Urbanism = Urbanism(
    lotArea: real,
    rule: Option<ZoneRule>,
    maxOccupancyArea: Option<real>,
    minPermeableArea: Option<real>,
    maxBuiltArea: Option<real>,
    maxBasementArea: Option<real>,
    core: Option<Core>,
    maxGroundArea: Option<real>,
    options: PlacementOptions,
    estimatedFloors: Option<int>,
    minStalls: Option<int>)

  /**
   * `estimate_pavimentos(gabarito_pav, gabarito_m)`: a given non-zero floor count
   * wins; otherwise the height in metres over 3 m per floor, at least one floor.
   */
  function EstimateFloors(floorsMax: Option<int>, heightM: Option<real>): (r: Option<int>)
    ensures floorsMax.Some? && floorsMax.value != 0 ==> r == floorsMax
    ensures (floorsMax.None? || floorsMax.value == 0) ==> (r.Some? <==> heightM.Some?)
    ensures (floorsMax.None? || floorsMax.value == 0) && heightM.Some? ==>
              r.value >= 1 && (heightM.value >= 3.0 ==> 3.0 * r.value as real <= heightM.value < 3.0 * r.value as real + 3.0)
    ensures (floorsMax.None? || floorsMax.value == 0) && heightM.Some? && heightM.value < 3.0 ==> r == Some(1)
  {
    if floorsMax.Some? && floorsMax.value != 0 then floorsMax
    else if heightM.None? then None
    else
      var pav := Floor(heightM.value / 3.0);
      Some(if pav > 0 then pav else 1)
  }

  /** A zone ratio applied to the lot area. */
  function Scaled(ratio: real, lotArea: real): real {
    ratio * lotArea
  }

  /** Python's `min(a, b)` on reals. */
  function Min(a: real, b: real): real {
    if a <= b then a else b
  }

  /** `area_max_ocupacao_real`: the smaller of the occupancy-ratio area and the envelope, or whichever exists. */
  function GroundLimit(occupancy: Option<real>, envelope: Option<real>): (r: Option<real>)
    ensures r.Some? <==> occupancy.Some? || envelope.Some?
    ensures occupancy.Some? ==> r.value <= occupancy.value
    ensures envelope.Some? ==> r.value <= envelope.value
    ensures r.Some? ==> r == occupancy || r == envelope
  {
    if occupancy.Some? && envelope.Some? then Some(Min(occupancy.value, envelope.value))
    else if occupancy.Some? then occupancy else envelope
  }

  /** One placement option: its envelope, its ground-floor maximum and what limits it. */
  function PlaceOption(lot: Lot, front: real, lateral: real, rear: real, attach: bool,
                       occupancy: Option<real>, otherLimit: Limit): (p: Placement)
    requires otherLimit != ByOccupancy
    ensures p.core == EnvelopeArea(lot.frontage, lot.depth, front, rear, lateral, lot.corner, lot.twoFronts, attach)
    ensures p.maxGroundArea == GroundLimit(occupancy, Some(p.core.area)).value
    ensures p.limit == ByOccupancy <==> occupancy.Some? && occupancy.value <= p.core.area
    ensures p.limit != ByOccupancy ==> p.limit == otherLimit
  {
    var env := EnvelopeArea(lot.frontage, lot.depth, front, rear, lateral, lot.corner, lot.twoFronts, attach);
    var maxGround := if occupancy.Some? then Min(occupancy.value, env.area) else env.area;
    var limit := if occupancy.Some? && occupancy.value <= env.area then ByOccupancy else otherLimit;
    Placement(front, lateral, rear, env, maxGround, limit)
  }

  /** Without a usable parking record a single-family house needs no stall and other uses are unknown. */
  function NoParkingRule(useCode: string): (r: Option<int>)
    ensures r.Some? <==> useCode == "res_unifamiliar"
    ensures r.Some? ==> r.value == 0
  {
    if useCode == "res_unifamiliar" then Some(0) else None
  }

  /** A zone ratio applied to the lot area, when the ratio is recorded. */
  function RatioArea(ratio: Option<real>, lotArea: real): (r: Option<real>)
    ensures r.Some? <==> ratio.Some?
    ensures r.Some? ==> r.value == Scaled(ratio.value, lotArea)
  {
    if ratio.Some? then Some(Scaled(ratio.value, lotArea)) else None
  }

  /** The two placement options of a single-family house, or `Failed` when a setback is missing. */
  function Placements(lot: Lot, r: ZoneRule, occupancy: Option<real>): (o: PlacementOptions)
    ensures o.Built? <==> r.frontSetback.Some? && r.lateralSetback.Some? && r.rearSetback.Some?
    ensures !o.Built? ==> o == Failed
    ensures o.Built? ==>
              && o.standard == PlaceOption(lot, r.frontSetback.value, r.lateralSetback.value, r.rearSetback.value,
                                           lot.attachOneSide, occupancy, BySetbacks)
              && o.art112 == PlaceOption(lot, 0.0, 0.0, r.rearSetback.value, false, occupancy, ByRearSetback)
  {
    if r.frontSetback.Some? && r.lateralSetback.Some? && r.rearSetback.Some? then
      Built(PlaceOption(lot, r.frontSetback.value, r.lateralSetback.value, r.rearSetback.value,
                        lot.attachOneSide, occupancy, BySetbacks),
            PlaceOption(lot, 0.0, 0.0, r.rearSetback.value, false, occupancy, ByRearSetback))
    else Failed
  }

  /** Python's `max(a, b)` on integers. */
  function MaxInt(a: int, b: int): (m: int)
    ensures m >= a && m >= b && (m == a || m == b)
  {
    if a >= b then a else b
  }

  /** A count raised to the record's `min_vagas` when there is one. */
  function AtLeastMin(v: int, minStalls: Option<int>): (r: int)
    ensures r >= v && (minStalls.Some? ==> r >= minStalls.value)
    ensures minStalls.None? ==> r == v
  {
    if minStalls.Some? then MaxInt(v, minStalls.value) else v
  }

  /** The stalls of a `per_unit_by_unit_area` rule before the minimum: units times the rate for the unit size, rounded. */
  function UnitAreaStalls(j: UnitAreaRule, units: int, unitArea: real): (v: int)
    ensures var raw := units as real * (if unitArea < j.threshold then j.rateBelow else j.rateAtOrAbove);
            if j.roundUp then v as real - 1.0 < raw <= v as real else raw - 0.5 <= v as real <= raw + 0.5
  {
    var rate := if unitArea < j.threshold then j.rateBelow else j.rateAtOrAbove;
    var raw := units as real * rate;
    if j.roundUp then Ceil(raw) else RoundHalfEven(raw)
  }

  /** The older parking fallback (`vagas_min`). */
  function OldParking(useCode: string, park: Option<OldParkRule>, lotArea: real,
                      units: Option<int>, unitArea: Option<real>): (r: Option<int>)
    ensures park.None? ==> r == NoParkingRule(useCode)
    ensures park.Some? && park.value.metric.FixedCount? ==> r == Some(Trunc(park.value.value))
    ensures park.Some? && park.value.metric.PerUnitCount? ==>
              r == Some(MaxInt(Trunc(park.value.value), park.value.minStalls.GetOr(0)))
    ensures park.Some? && park.value.metric.PerArea? ==>
              r == Some(AtLeastMin(Floor(Scaled(park.value.value, lotArea)), park.value.minStalls))
    ensures park.Some? && park.value.metric.JsonUnitArea? && units.Some? && units.value != 0
            && unitArea.Some? && unitArea.value != 0.0 ==>
              r == Some(AtLeastMin(UnitAreaStalls(park.value.metric.rule, units.value, unitArea.value), park.value.minStalls))
    ensures park.Some? && (park.value.metric.OtherMetric? || (park.value.metric.JsonUnitArea? &&
              (units.None? || units.value == 0 || unitArea.None? || unitArea.value == 0.0))) ==>
              r == NoParkingRule(useCode)
  {
    var base := NoParkingRule(useCode);
    if park.None? then base
    else
      var p := park.value;
      match p.metric
      case FixedCount => Some(Trunc(p.value))
      case PerUnitCount => Some(MaxInt(Trunc(p.value), p.minStalls.GetOr(0)))
      case PerArea => Some(AtLeastMin(Floor(Scaled(p.value, lotArea)), p.minStalls))
      case JsonUnitArea(j) =>
        if units.None? || units.value == 0 || unitArea.None? || unitArea.value == 0.0 then base
        else Some(AtLeastMin(UnitAreaStalls(j, units.value, unitArea.value), p.minStalls))
      case OtherMetric => base
  }

  /**
   * Every metric that consults `min_vagas` (per unit, per area, and the unit-area
   * rule with units and a unit area given) yields at least that minimum.
   */
  lemma OldParkingRespectsMinimum(useCode: string, park: Option<OldParkRule>, lotArea: real,
                                  units: Option<int>, unitArea: Option<real>)
    requires park.Some? && park.value.minStalls.Some?
    requires park.value.metric.PerUnitCount? || park.value.metric.PerArea?
             || (park.value.metric.JsonUnitArea? && units.Some? && units.value != 0
                 && unitArea.Some? && unitArea.value != 0.0)
    ensures var r := OldParking(useCode, park, lotArea, units, unitArea);
            r.Some? && r.value >= park.value.minStalls.value
  {
  }

  /**
   * `compute_urbanism`: the lot area; with a zone rule, the ratio areas, the
   * envelope (when all three setbacks are recorded), the binding ground-floor
   * limit, the placement options of a single-family house and the floor
   * estimate; and the older parking fallback.
   */
  method ComputeUrbanism(useCode: string, lot: Lot, rule: Option<ZoneRule>, park: Option<OldParkRule>,
                         units: Option<int>, unitArea: Option<real>) returns (u: Urbanism)
    ensures u.lotArea == lot.frontage * lot.depth && u.rule == rule
    ensures rule.None? ==> u.maxOccupancyArea.None? && u.minPermeableArea.None? && u.maxBuiltArea.None?
                           && u.maxBasementArea.None? && u.core.None? && u.maxGroundArea.None?
                           && u.options == NotApplicable && u.estimatedFloors.None?
    ensures rule.Some? ==> u.maxOccupancyArea == RatioArea(rule.value.toMax, u.lotArea)
                           && u.minPermeableArea == RatioArea(rule.value.tpMin, u.lotArea)
                           && u.maxBuiltArea == RatioArea(rule.value.iaMax, u.lotArea)
                           && u.maxBasementArea == RatioArea(rule.value.toSubMax, u.lotArea)
    ensures rule.Some? ==> (u.core.Some? <==> rule.value.frontSetback.Some? && rule.value.lateralSetback.Some? && rule.value.rearSetback.Some?)
    ensures u.core.Some? ==> u.core.value == EnvelopeArea(lot.frontage, lot.depth, rule.value.frontSetback.value,
                                                          rule.value.rearSetback.value, rule.value.lateralSetback.value,
                                                          lot.corner, lot.twoFronts, lot.attachOneSide)
    ensures rule.Some? ==> u.maxGroundArea == GroundLimit(u.maxOccupancyArea, if u.core.Some? then Some(u.core.value.area) else None)
    ensures rule.Some? && useCode == "res_unifamiliar" ==> u.options == Placements(lot, rule.value, u.maxOccupancyArea)
    ensures rule.Some? && useCode == "res_unifamiliar" ==> (u.options.Built? <==> u.core.Some?)
    ensures rule.Some? && useCode != "res_unifamiliar" ==> u.options == NotApplicable
    ensures u.options.Built? ==>
              && u.options.standard.core == u.core.value
              && u.options.art112.front == 0.0 && u.options.art112.lateral == 0.0
              && u.options.art112.rear == rule.value.rearSetback.value
              && u.options.art112.core == EnvelopeArea(lot.frontage, lot.depth, 0.0, rule.value.rearSetback.value, 0.0,
                                                       lot.corner, lot.twoFronts, false)
              && u.options.art112.maxGroundArea == GroundLimit(u.maxOccupancyArea, Some(u.options.art112.core.area)).value
              && u.options.standard.maxGroundArea == u.maxGroundArea.value
              && (u.options.standard.limit == ByOccupancy <==> u.maxOccupancyArea.Some? && u.maxOccupancyArea.value <= u.core.value.area)
              && (u.options.art112.limit == ByOccupancy <==> u.maxOccupancyArea.Some? && u.maxOccupancyArea.value <= u.options.art112.core.area)
    ensures rule.Some? ==> u.estimatedFloors == EstimateFloors(rule.value.floorsMax, rule.value.heightM)
    ensures u.minStalls == OldParking(useCode, park, u.lotArea, units, unitArea)
  {
    var lotArea := lot.frontage * lot.depth;
    var toArea, tpArea, iaArea, basementArea: Option<real> := None, None, None, None;
    var core: Option<Core> := None;
    var ground: Option<real> := None;
    var options := NotApplicable;
    var floors: Option<int> := None;
    if rule.Some? {
      var r := rule.value;
      toArea := RatioArea(r.toMax, lotArea);
      tpArea := RatioArea(r.tpMin, lotArea);
      iaArea := RatioArea(r.iaMax, lotArea);
      basementArea := RatioArea(r.toSubMax, lotArea);
      if r.frontSetback.Some? && r.lateralSetback.Some? && r.rearSetback.Some? {
        core := Some(EnvelopeArea(lot.frontage, lot.depth, r.frontSetback.value, r.rearSetback.value,
                                  r.lateralSetback.value, lot.corner, lot.twoFronts, lot.attachOneSide));
      }
      ground := GroundLimit(toArea, if core.Some? then Some(core.value.area) else None);
      if useCode == "res_unifamiliar" {
        options := Placements(lot, r, toArea);
      }
      floors := EstimateFloors(r.floorsMax, r.heightM);
    }
    var stalls := OldParking(useCode, park, lotArea, units, unitArea);
    u := Urbanism(lotArea, rule, toArea, tpArea, iaArea, basementArea, core, ground, options, floors, stalls);
  }

  /**
   * Building to the line never shrinks the core: with non-negative front and
   * lateral setbacks, the Art. 112 envelope (front and lateral setbacks zero,
   * rear kept) is at least the standard one, so its ground-floor maximum is too.
   */
  lemma {:induction false} Art112NeverSmaller(lot: Lot, front: real, lateral: real, rear: real, occupancy: Option<real>)
    requires front >= 0.0 && lateral >= 0.0
    ensures var s := PlaceOption(lot, front, lateral, rear, lot.attachOneSide, occupancy, BySetbacks);
            var a := PlaceOption(lot, 0.0, 0.0, rear, false, occupancy, ByRearSetback);
            s.core.area <= a.core.area && s.maxGroundArea <= a.maxGroundArea
            && (s.limit == ByOccupancy ==> a.limit == ByOccupancy)
  {
    var f, d := lot.frontage, lot.depth;
    assert EnvelopeArea(f, d, 0.0, rear, 0.0, lot.corner, lot.twoFronts, false)
        == EnvelopeArea(f, d, 0.0, rear, 0.0, lot.corner, lot.twoFronts, lot.attachOneSide);
    SetbacksShrinkCore(f, d, 0.0, rear, 0.0, front, rear, lateral, lot.corner, lot.twoFronts, lot.attachOneSide);
  }

  /** The worked scenario: occupancy 0.5 on the 10 m x 30 m lot (setbacks 5 / 1.5 / 3) is bound by the occupancy ratio at 150 m². */
  lemma OccupancyBindsExample()
    ensures var lot := Lot(10.0, 30.0, false, false, false);
            var p := PlaceOption(lot, 5.0, 1.5, 3.0, false, Some(0.5 * 300.0), BySetbacks);
            p.core.area == 154.0 && p.maxGroundArea == 150.0 && p.limit == ByOccupancy
  {
    MidBlockExample();
  }

  /** How `build_leigo_simulation` chose the total area. */
  datatype Mode = AutoLimits | Project

  /** The reasons it lists (their wording differs between the two modes). */
  datatype Reason = AboveBuiltMax | AboveGroundMax | BuiltMaxMissing | GroundMaxMissing | PermeableMissing

  datatype Simulation = Simulation(
    mode: Mode, floors: int, totalArea: real, footprint: real, usableArea: real,
    groundShare: Option<real>, footprintShare: Option<real>,
    hasTo: bool, hasIa: bool, hasTp: bool, okTo: Option<bool>, okIa: Option<bool>,
    viable: bool, reasons: seq<Reason>)

  /** The tolerance of the feasibility comparisons. */
  const Tolerance: real := 0.000000001

  /** Floors used: the desired count when non-zero, else the estimate (or 1), at least 1. */
  function FloorsUsed(estimated: Option<int>, desiredFloors: int): (r: int)
    ensures r >= 1
    ensures desiredFloors >= 1 ==> r == desiredFloors
    ensures desiredFloors == 0 ==> r == (if estimated.None? || estimated.value <= 0 then 1 else estimated.value)
    ensures desiredFloors < 0 ==> r == 1
  {
    var est := if estimated.None? || estimated.value == 0 then 1 else estimated.value;
    var pav := if desiredFloors != 0 then desiredFloors else est;
    if pav >= 1 then pav else 1
  }

  /** The automatic total: the smaller of the positive limits among the built-area maximum and ground maximum times floors, else 0. */
  function AutoTotal(maxBuilt: Option<real>, maxGround: Option<real>, floors: int): (r: real)
    requires floors >= 1
    ensures maxBuilt.Some? && maxBuilt.value > 0.0 ==> r <= maxBuilt.value
    ensures maxGround.Some? && maxGround.value > 0.0 ==> r <= maxGround.value * floors as real
    ensures r >= 0.0
    ensures var a := maxBuilt.Some? && maxBuilt.value > 0.0;
            var b := maxGround.Some? && maxGround.value > 0.0;
            && (a || b ==> (a && r == maxBuilt.value) || (b && r == maxGround.value * floors as real))
            && (!a && !b ==> r == 0.0)
  {
    var a := maxBuilt.Some? && maxBuilt.value > 0.0;
    var b := maxGround.Some? && maxGround.value > 0.0;
    if a && b then Min(maxBuilt.value, maxGround.value * floors as real)
    else if a then maxBuilt.value
    else if b then maxGround.value * floors as real
    else 0.0
  }

  /** `footprint` on each of `floors` floors makes up `total`. */
  predicate EvenlySpread(footprint: real, floors: int, total: real) {
    footprint * floors as real == total
  }

  /** The ground-floor area of a total spread evenly over the floors. */
  function Footprint(total: real, floors: int): (f: real)
    requires floors >= 1
    ensures EvenlySpread(f, floors, total)
  {
    total / floors as real
  }

  /** A part's share of the lot area, when the lot area is positive and the part is known. */
  function Share(part: Option<real>, lotArea: real): (r: Option<real>)
    ensures r.Some? <==> part.Some? && lotArea > 0.0
    ensures r.Some? ==> r.value * lotArea == part.value
  {
    if part.Some? && lotArea > 0.0 then Some(part.value / lotArea) else None
  }

  /** A feasibility check, present only when both the rule ratio and the computed limit exist. */
  function Check(has: bool, value: real, limit: real): (ok: Option<bool>)
    ensures ok.Some? <==> has
    ensures has ==> (ok.value <==> value <= limit + Tolerance)
  {
    if has then Some(value <= limit + Tolerance) else None
  }

  /**
   * The reasons listed: limits exceeded (project mode only), then the
   * missing built-area, ground and permeability data.
   */
  function Reasons(auto: bool, hasIa: bool, hasTo: bool, hasTp: bool, okIa: Option<bool>, okTo: Option<bool>): (rs: seq<Reason>)
    ensures AboveBuiltMax in rs <==> !auto && okIa == Some(false)
    ensures AboveGroundMax in rs <==> !auto && okTo == Some(false)
    ensures BuiltMaxMissing in rs <==> !hasIa
    ensures GroundMaxMissing in rs <==> !hasTo
    ensures PermeableMissing in rs <==> !hasTp
  {
    (if !auto && okIa == Some(false) then [AboveBuiltMax] else [])
    + (if !auto && okTo == Some(false) then [AboveGroundMax] else [])
    + (if !hasIa then [BuiltMaxMissing] else [])
    + (if !hasTo then [GroundMaxMissing] else [])
    + (if !hasTp then [PermeableMissing] else [])
  }

  /** The sizing part of the simulation: floors, total and ground-floor area, usable area. */
  datatype Sizing = Sizing(floors: int, total: real, footprint: real, usable: real)

  /** Floors and areas: the desired total in project mode, the automatic total otherwise. */
  function Size(u: Urbanism, desiredTotal: real, desiredFloors: int, usableArea: real): (z: Sizing)
    ensures z.floors == FloorsUsed(u.estimatedFloors, desiredFloors)
    ensures desiredTotal > 0.0 ==> z.total == desiredTotal
    ensures !(desiredTotal > 0.0) ==> z.total == AutoTotal(u.maxBuiltArea, u.maxGroundArea, z.floors)
    ensures z.floors >= 1 && EvenlySpread(z.footprint, z.floors, z.total)
    ensures z.usable == if usableArea > 0.0 then usableArea else z.total
  {
    var pav := FloorsUsed(u.estimatedFloors, desiredFloors);
    var total := if desiredTotal > 0.0 then desiredTotal else AutoTotal(u.maxBuiltArea, u.maxGroundArea, pav);
    Sizing(pav, total, Footprint(total, pav), if usableArea > 0.0 then usableArea else total)
  }

  /** The checks, the verdict and the reasons for a given sizing. */
  function Assess(u: Urbanism, auto: bool, z: Sizing): (s: Simulation)
    ensures s.mode == (if auto then AutoLimits else Project)
    ensures s.floors == z.floors && s.totalArea == z.total && s.footprint == z.footprint && s.usableArea == z.usable
    ensures s.hasTo <==> u.rule.Some? && u.rule.value.toMax.Some? && u.maxGroundArea.Some?
    ensures s.hasIa <==> u.rule.Some? && u.rule.value.iaMax.Some? && u.maxBuiltArea.Some?
    ensures s.hasTp <==> u.rule.Some? && u.rule.value.tpMin.Some? && u.minPermeableArea.Some?
    ensures s.okIa.Some? <==> s.hasIa
    ensures s.okTo.Some? <==> s.hasTo
    ensures s.hasIa ==> (s.okIa.value <==> z.total <= u.maxBuiltArea.value + Tolerance)
    ensures s.hasTo ==> (s.okTo.value <==> z.footprint <= u.maxGroundArea.value + Tolerance)
    ensures s.viable <==> auto || (s.okIa != Some(false) && s.okTo != Some(false))
    ensures s.reasons == Reasons(auto, s.hasIa, s.hasTo, s.hasTp, s.okIa, s.okTo)
    ensures s.groundShare == Share(u.maxGroundArea, u.lotArea)
    ensures s.footprintShare == Share(Some(z.footprint), u.lotArea)
  {
    var hasTo := u.rule.Some? && u.rule.value.toMax.Some? && u.maxGroundArea.Some?;
    var hasIa := u.rule.Some? && u.rule.value.iaMax.Some? && u.maxBuiltArea.Some?;
    var hasTp := u.rule.Some? && u.rule.value.tpMin.Some? && u.minPermeableArea.Some?;
    var okTo := Check(hasTo, z.footprint, if hasTo then u.maxGroundArea.value else 0.0);
    var okIa := Check(hasIa, z.total, if hasIa then u.maxBuiltArea.value else 0.0);
    var viable := auto || (okIa != Some(false) && okTo != Some(false));
    Simulation(if auto then AutoLimits else Project, z.floors, z.total, z.footprint, z.usable,
               Share(u.maxGroundArea, u.lotArea), Share(Some(z.footprint), u.lotArea),
               hasTo, hasIa, hasTp, okTo, okIa, viable, Reasons(auto, hasIa, hasTo, hasTp, okIa, okTo))
  }

  /** `build_leigo_simulation(calc, desired_total_area_m2, desired_pavimentos, area_util_m2)`. */
  function LeigoSimulation(u: Urbanism, desiredTotal: real, desiredFloors: int, usableArea: real): (s: Simulation)
    ensures s.floors >= 1 && EvenlySpread(s.footprint, s.floors, s.totalArea)
    ensures s.mode == AutoLimits <==> !(desiredTotal > 0.0)
    ensures s.mode == Project ==> s.totalArea == desiredTotal
    ensures s.usableArea == if usableArea > 0.0 then usableArea else s.totalArea
    ensures s.hasTo <==> u.rule.Some? && u.rule.value.toMax.Some? && u.maxGroundArea.Some?
    ensures s.hasIa <==> u.rule.Some? && u.rule.value.iaMax.Some? && u.maxBuiltArea.Some?
    ensures s.hasTp <==> u.rule.Some? && u.rule.value.tpMin.Some? && u.minPermeableArea.Some?
    ensures s.okIa.Some? <==> s.hasIa
    ensures s.okTo.Some? <==> s.hasTo
    ensures s.hasIa ==> (s.okIa.value <==> s.totalArea <= u.maxBuiltArea.value + Tolerance)
    ensures s.hasTo ==> (s.okTo.value <==> s.footprint <= u.maxGroundArea.value + Tolerance)
    ensures s.mode == AutoLimits ==> s.viable
    ensures s.mode == Project ==> (s.viable <==> s.okIa != Some(false) && s.okTo != Some(false))
    ensures s.mode == Project ==> (AboveBuiltMax in s.reasons <==> s.okIa == Some(false))
    ensures s.mode == Project ==> (AboveGroundMax in s.reasons <==> s.okTo == Some(false))
    ensures BuiltMaxMissing in s.reasons <==> !s.hasIa
    ensures GroundMaxMissing in s.reasons <==> !s.hasTo
    ensures PermeableMissing in s.reasons <==> !s.hasTp
  {
    Assess(u, !(desiredTotal > 0.0), Size(u, desiredTotal, desiredFloors, usableArea))
  }

  /**
   * In automatic mode the proposed total respects every positive limit it was
   * built from: the built-area check passes, and so does the ground-floor check
   * when the ground maximum is positive.
   */
  lemma {:induction false} AutoModeWithinLimits(u: Urbanism, desiredFloors: int, usableArea: real, desiredTotal: real)
    requires !(desiredTotal > 0.0)
    ensures var s := LeigoSimulation(u, desiredTotal, desiredFloors, usableArea);
            && (s.hasIa && u.maxBuiltArea.value > 0.0 ==> s.okIa == Some(true))
            && (s.hasTo && u.maxGroundArea.value > 0.0 ==> s.okTo == Some(true))
  {
    var z := Size(u, desiredTotal, desiredFloors, usableArea);
    var s := LeigoSimulation(u, desiredTotal, desiredFloors, usableArea);
    assert s == Assess(u, true, z);
    if s.hasTo && u.maxGroundArea.value > 0.0 {
      SpreadWithinLimit(z.footprint, z.floors, z.total, u.maxGroundArea.value);
    }
  }

  /** A total within `limit` per floor puts at most `limit` on each floor. */
  lemma SpreadWithinLimit(footprint: real, floors: int, total: real, limit: real)
    requires floors >= 1 && EvenlySpread(footprint, floors, total) && total <= limit * floors as real
    ensures footprint <= limit
  {
  }
}
