/**
 * Parking demand (Annex IV): `calc_parking_v2` (core/app_main.py). A rule set
 * holds a use code, a base metric and a list of tagged rules; the first rule
 * that yields a raw value wins, the raw value goes through the Annex IV
 * rounding rule, and an optional 20% reduction near the light rail applies.
 * Small non-residential uses on local streets are waived, and a rule set from
 * which no rule yields a value is reported as "insufficient data".
 */
module Parking {
  import opened Wrappers
  import opened Rounding

  /** The rule set's `base_metric`: usable area ("area_util_m2") or another input quantity. */
  datatype BaseMetric = UsableArea | InputQuantity(name: string)

  /** One band of a `band_ratio` rule. */
  datatype RatioBand = RatioBand(minM2: real, maxM2: Option<real>, perM2: real, text: string)

  /** The `condition` of a per-unit rule: none (or empty), or an expression already evaluated. */
  datatype Condition = Unconditional | Conditional(holds: bool)

  /** A rule, by its `type` tag. `Fixed.value` is None when `float(value)` raises. */
  datatype ParkRule =
    | Fixed(value: Option<real>, text: string)
    | Ratio(perM2: real, perUnits: real, text: string)
    | BandRatio(bands: seq<RatioBand>)
    | ThresholdFixed(maxM2: Option<real>, count: real, text: string)
    | RatioAboveThreshold(minM2: real, perM2: real, text: string)
    | PerUnit(perUnit: real, condition: Condition, text: string)
    | Unknown

  datatype RuleSet = RuleSet(useCode: string, baseMetric: BaseMetric, rules: seq<ParkRule>)

  /** The inputs: usable area, the local-street and near-light-rail flags, the apartment count and other quantities. */
  datatype Inputs = Inputs(area: real, onLocalStreet: bool, nearTransit: bool, apartments: real,
                           quantities: map<string, real>)

  datatype Note = TextualRuleNotCalculable | InsufficientData

  /** The `VLT_20pct` adjustment record. */
  datatype Adjustment = TransitReduction(from: int, to: int)

  datatype ParkingResult = ParkingResult(raw: Option<real>, required: Option<int>, appliedText: Option<string>,
                                         adjustments: seq<Adjustment>, notes: seq<Note>)

  const WaiverText := "Dispensa: não residencial ≤ 100m² em via local."

  /** ASCII upper-casing (Python's `str.upper` on ASCII text). */
  function Upper(s: string): (r: string)
    ensures |r| == |s|
  {
    if s == [] then []
    else [if 'a' <= s[0] <= 'z' then (s[0] as int - 32) as char else s[0]] + Upper(s[1..])
  }

  predicate IsPrefix(p: string, s: string) { |p| <= |s| && s[..|p|] == p }

  /** `w in s` for strings: `w` occurs in `s` at some position. */
  predicate Contains(s: string, w: string)
    decreases |s|
  {
    |w| <= |s| && (s[..|w|] == w || Contains(s[1..], w))
  }

  /** A residential use code: "RES_UNI…", "RES_MULTI…", or containing "RESIDEN", ignoring case. */
  predicate IsResidential(useCode: string) {
    var u := Upper(useCode);
    IsPrefix("RES_UNI", u) || IsPrefix("RES_MULTI", u) || Contains(u, "RESIDEN")
  }

  /** The waiver: non-residential, `0 < area <= 100`, on a local street, with base metric usable area. */
  predicate Waived(rs: RuleSet, inp: Inputs) {
    inp.onLocalStreet && rs.baseMetric == UsableArea && 0.0 < inp.area <= 100.0 && !IsResidential(rs.useCode)
  }

  /** Python's `x / per if per else 0.0`. */
  function PerOrZero(x: real, per: real): real {
    if per == 0.0 then 0.0 else x / per
  }

  /** `qty * val` of a per-unit rule. */
  function Times(qty: real, perUnit: real): real {
    qty * perUnit
  }

  /** The quantity a non-area base metric reads from the inputs (0 when absent). */
  function Quantity(base: BaseMetric, inp: Inputs): real {
    match base
    case UsableArea => inp.area
    case InputQuantity(name) => if name in inp.quantities then inp.quantities[name] else 0.0
  }

  predicate InRatioBand(b: RatioBand, area: real) {
    area >= b.minM2 && (b.maxM2.None? || area <= b.maxM2.value)
  }

  function FirstRatioBand(bands: seq<RatioBand>, area: real): (r: Option<nat>)
    ensures r.Some? ==> r.value < |bands| && InRatioBand(bands[r.value], area)
                        && forall j :: 0 <= j < r.value ==> !InRatioBand(bands[j], area)
    ensures r.None? ==> forall j :: 0 <= j < |bands| ==> !InRatioBand(bands[j], area)
  {
    if bands == [] then None
    else if InRatioBand(bands[0], area) then Some(0)
    else
      var r := FirstRatioBand(bands[1..], area);
      assert forall j :: 1 <= j < |bands| ==> bands[j] == bands[1..][j - 1];
      if r.None? then None else Some(r.value + 1)
  }

  /** The raw value and text one rule yields, or None when the loop moves on past it. */
  function RuleYield(r: ParkRule, base: BaseMetric, inp: Inputs): Option<(real, string)> {
    match r
    case Fixed(v, t) => if v.Some? then Some((v.value, t)) else None
    case Ratio(perM2, perUnits, t) =>
      if base == UsableArea then Some((PerOrZero(inp.area, perM2), t))
      else Some((PerOrZero(Quantity(base, inp), perUnits), t))
    case BandRatio(bands) =>
      if base != UsableArea then None
      else
        (match FirstRatioBand(bands, inp.area)
         case None => None
         case Some(i) => Some((PerOrZero(inp.area, bands[i].perM2), bands[i].text)))
    case ThresholdFixed(mx, count, t) =>
      if base != UsableArea || mx.None? || inp.area > mx.value then None else Some((count, t))
    case RatioAboveThreshold(mn, perM2, t) =>
      if base != UsableArea || inp.area < mn then None else Some((PerOrZero(inp.area, perM2), t))
    case PerUnit(value, cond, t) =>
      if cond == Conditional(false) then None else Some((Times(inp.apartments, value), t))
    case Unknown => None
  }

  /** The note a rule leaves when the loop passes it: a threshold rule without `max_m2` cannot be computed. */
  function RuleNotes(r: ParkRule, base: BaseMetric): seq<Note> {
    if base == UsableArea && r.ThresholdFixed? && r.maxM2.None? then [TextualRuleNotCalculable] else []
  }

  /** The notes left by a run of rules the loop passed. */
  function PassedNotes(rules: seq<ParkRule>, base: BaseMetric): seq<Note> {
    if rules == [] then [] else PassedNotes(rules[..|rules| - 1], base) + RuleNotes(rules[|rules| - 1], base)
  }

  /** The index of the first rule that yields a raw value. */
  function FirstYield(rules: seq<ParkRule>, base: BaseMetric, inp: Inputs): (r: Option<nat>)
    ensures r.Some? ==> r.value < |rules| && RuleYield(rules[r.value], base, inp).Some?
                        && forall j :: 0 <= j < r.value ==> RuleYield(rules[j], base, inp).None?
    ensures r.None? ==> forall j :: 0 <= j < |rules| ==> RuleYield(rules[j], base, inp).None?
  {
    if rules == [] then None
    else if RuleYield(rules[0], base, inp).Some? then Some(0)
    else
      var r := FirstYield(rules[1..], base, inp);
      assert forall j :: 1 <= j < |rules| ==> rules[j] == rules[1..][j - 1];
      if r.None? then None else Some(r.value + 1)
  }

  /** The 20% light-rail reduction: `ceil(0.8 * req)`. */
  function TransitReduced(req: int): (r: int)
    requires req > 0
    ensures 1 <= r <= req
    ensures r as real >= 0.8 * req as real > r as real - 1.0
  {
    Ceil(0.8 * req as real)
  }

  /**
   * What `calc_parking_v2` returns. The waiver short-circuits with 0 stalls;
   * otherwise the first yielding rule gives the raw value, which is rounded by
   * the Annex IV rule and then, near the light rail, reduced by 20% (rounding
   * up); no yielding rule means no requirement and an "insufficient data" note.
   */
  function ParkingSpec(rs: RuleSet, inp: Inputs): (out: ParkingResult)
    ensures Waived(rs, inp) ==> out == ParkingResult(Some(0.0), Some(0), Some(WaiverText), [], [])
    ensures !Waived(rs, inp) ==> (out.required.None? <==> FirstYield(rs.rules, rs.baseMetric, inp).None?)
    ensures out.required.None? ==> |out.notes| > 0 && out.notes[|out.notes| - 1] == InsufficientData && out.raw.None?
    ensures !Waived(rs, inp) && FirstYield(rs.rules, rs.baseMetric, inp).None? ==>
              && out.raw.None? && out.appliedText.None? && out.adjustments == []
              && out.notes == PassedNotes(rs.rules, rs.baseMetric) + [InsufficientData]
    ensures !Waived(rs, inp) && FirstYield(rs.rules, rs.baseMetric, inp).Some? ==>
              var i := FirstYield(rs.rules, rs.baseMetric, inp).value;
              var y := RuleYield(rs.rules[i], rs.baseMetric, inp).value;
              && out.raw == Some(y.0) && out.appliedText == Some(y.1)
              && out.notes == PassedNotes(rs.rules[..i], rs.baseMetric)
    ensures out.required.Some? ==> out.required.value >= 0
    ensures !Waived(rs, inp) && out.raw.Some? ==>
              var req := RoundRuleAnnexIV(out.raw.value);
              if inp.nearTransit && req > 0
              then out.required == Some(TransitReduced(req)) && out.adjustments == [TransitReduction(req, TransitReduced(req))]
              else out.required == Some(req) && out.adjustments == []
  {
    if Waived(rs, inp) then ParkingResult(Some(0.0), Some(0), Some(WaiverText), [], [])
    else
      match FirstYield(rs.rules, rs.baseMetric, inp)
      case None =>
        ParkingResult(None, None, None, [], PassedNotes(rs.rules, rs.baseMetric) + [InsufficientData])
      case Some(i) =>
        var y := RuleYield(rs.rules[i], rs.baseMetric, inp).value;
        var notes := PassedNotes(rs.rules[..i], rs.baseMetric);
        var req := RoundRuleAnnexIV(y.0);
        if inp.nearTransit && req > 0 then
          ParkingResult(Some(y.0), Some(TransitReduced(req)), Some(y.1), [TransitReduction(req, TransitReduced(req))], notes)
        else
          ParkingResult(Some(y.0), Some(req), Some(y.1), [], notes)
  }

  lemma YieldIgnoresTransit(r: ParkRule, base: BaseMetric, inp: Inputs, b: bool)
    ensures RuleYield(r, base, inp.(nearTransit := b)) == RuleYield(r, base, inp)
  {
    var inp' := inp.(nearTransit := b);
    assert inp'.area == inp.area && inp'.apartments == inp.apartments && inp'.quantities == inp.quantities;
    assert Quantity(base, inp') == Quantity(base, inp);
  }

  /** The light-rail flag plays no part in choosing the rule. */
  lemma {:induction false} FirstYieldIgnoresTransit(rules: seq<ParkRule>, base: BaseMetric, inp: Inputs, b: bool)
    ensures FirstYield(rules, base, inp.(nearTransit := b)) == FirstYield(rules, base, inp)
  {
    if rules != [] {
      YieldIgnoresTransit(rules[0], base, inp, b);
      FirstYieldIgnoresTransit(rules[1..], base, inp, b);
    }
  }

  /** Near the light rail the requirement never grows. */
  lemma TransitNeverIncreases(rs: RuleSet, inp: Inputs)
    requires !Waived(rs, inp) && FirstYield(rs.rules, rs.baseMetric, inp).Some?
    ensures var with := ParkingSpec(rs, inp.(nearTransit := true));
            var without := ParkingSpec(rs, inp.(nearTransit := false));
            with.required.Some? && without.required.Some? && with.required.value <= without.required.value
  {
    FirstYieldIgnoresTransit(rs.rules, rs.baseMetric, inp, true);
    FirstYieldIgnoresTransit(rs.rules, rs.baseMetric, inp, false);
    var i := FirstYield(rs.rules, rs.baseMetric, inp).value;
    YieldIgnoresTransit(rs.rules[i], rs.baseMetric, inp, true);
    YieldIgnoresTransit(rs.rules[i], rs.baseMetric, inp, false);
    assert Waived(rs, inp.(nearTransit := true)) == Waived(rs, inp) == Waived(rs, inp.(nearTransit := false));
  }

  /** The band loop of a `band_ratio` rule: stop at the first band containing the area. */
  method ChooseRatioBand(bands: seq<RatioBand>, area: real) returns (chosen: Option<nat>)
    ensures chosen == FirstRatioBand(bands, area)
  {
    chosen := None;
    var j := 0;
    while j < |bands|
      invariant 0 <= j <= |bands|
      invariant forall n :: 0 <= n < j ==> !InRatioBand(bands[n], area)
    {
      if InRatioBand(bands[j], area) {
        chosen := Some(j);
        break;
      }
      j := j + 1;
    }
  }

  /** The first yielding rule is the one reached after only non-yielding rules. */
  lemma FirstYieldAt(rules: seq<ParkRule>, base: BaseMetric, inp: Inputs, i: nat)
    requires i < |rules| && RuleYield(rules[i], base, inp).Some?
    requires forall j :: 0 <= j < i ==> RuleYield(rules[j], base, inp).None?
    ensures FirstYield(rules, base, inp) == Some(i)
  {
  }

  /** One pass of the rule loop: the rule's raw value and text, if it yields one, and the notes it leaves. */
  method EvalRule(r: ParkRule, base: BaseMetric, inp: Inputs) returns (y: Option<(real, string)>, notes: seq<Note>)
    ensures y == RuleYield(r, base, inp) && notes == RuleNotes(r, base)
  {
    y, notes := None, [];
    match r {
      case Fixed(v, t) =>
        if v.Some? { y := Some((v.value, t)); }
      case Ratio(perM2, perUnits, t) =>
        if base == UsableArea {
          y := Some((PerOrZero(inp.area, perM2), t));
        } else {
          var qty := Quantity(base, inp);
          y := Some((PerOrZero(qty, perUnits), t));
        }
      case BandRatio(bands) =>
        if base == UsableArea {
          var chosen := ChooseRatioBand(bands, inp.area);
          if chosen.Some? {
            var b := bands[chosen.value];
            y := Some((PerOrZero(inp.area, b.perM2), b.text));
          }
        }
      case ThresholdFixed(mx, count, t) =>
        if base == UsableArea {
          if mx.None? {
            notes := [TextualRuleNotCalculable];
          } else if inp.area <= mx.value {
            y := Some((count, t));
          }
        }
      case RatioAboveThreshold(mn, perM2, t) =>
        if base == UsableArea && inp.area >= mn {
          y := Some((PerOrZero(inp.area, perM2), t));
        }
      case PerUnit(value, cond, t) =>
        if cond != Conditional(false) {
          y := Some((Times(inp.apartments, value), t));
        }
      case Unknown =>
    }
  }

  /** The rule loop of `calc_parking_v2`: stops at the first yielding rule, collecting the notes of the rules it passes. */
  method ScanRules(rules: seq<ParkRule>, base: BaseMetric, inp: Inputs)
    returns (raw: Option<real>, text: Option<string>, notes: seq<Note>)
    ensures match FirstYield(rules, base, inp)
            case None => raw.None? && text.None? && notes == PassedNotes(rules, base)
            case Some(i) => raw == Some(RuleYield(rules[i], base, inp).value.0)
                            && text == Some(RuleYield(rules[i], base, inp).value.1)
                            && notes == PassedNotes(rules[..i], base)
  {
    raw, text, notes := None, None, [];
    var i := 0;
    while i < |rules|
      invariant 0 <= i <= |rules|
      invariant forall j :: 0 <= j < i ==> RuleYield(rules[j], base, inp).None?
      invariant notes == PassedNotes(rules[..i], base)
    {
      assert rules[..i + 1][..i] == rules[..i];
      var y, ruleNotes := EvalRule(rules[i], base, inp);
      if y.Some? {
        FirstYieldAt(rules, base, inp, i);
        raw, text := Some(y.value.0), Some(y.value.1);
        return;
      }
      notes := notes + ruleNotes;
      i := i + 1;
    }
    assert rules[..i] == rules;
  }

  /** `calc_parking_v2(rule_json, inputs)`. */
  method CalcParkingV2(rs: RuleSet, inp: Inputs) returns (out: ParkingResult)
    ensures out == ParkingSpec(rs, inp)
  {
    if inp.onLocalStreet && rs.baseMetric == UsableArea {
      var isRes := IsResidential(rs.useCode);
      if 0.0 < inp.area <= 100.0 && !isRes {
        return ParkingResult(Some(0.0), Some(0), Some(WaiverText), [], []);
      }
    }
    var raw, text, notes := ScanRules(rs.rules, rs.baseMetric, inp);
    if raw.None? {
      return ParkingResult(None, None, text, [], notes + [InsufficientData]);
    }
    var req := RoundRuleAnnexIV(raw.value);
    var adjustments: seq<Adjustment> := [];
    if inp.nearTransit && req > 0 {
      var reduced := Ceil(req as real * 0.8);
      adjustments := adjustments + [TransitReduction(req, reduced)];
      req := reduced;
    }
    out := ParkingResult(raw, Some(req), text, adjustments, notes);
  }
}
