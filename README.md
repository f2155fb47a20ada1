# Viabilidade Sobral — verified model of the feasibility engine

This project models the calculation core of the Sobral urban-feasibility
app. A user clicks a point on the city map. The app finds the zoning
district under the click and the nearest street. It reads the district's
rules: the occupancy ratio (TO), the permeability ratio (TP), the floor-area
ratio (IA), the setbacks and the height limit. From these it computes what
may be built on a rectangular lot:

- the setback envelope ("miolo");
- the binding ground-floor maximum;
- two placement options for a single-family house: the district's setbacks,
  and the Art. 112 variant with no front or lateral setbacks;
- a floor estimate;
- a simple feasibility simulation for a proposed total area;
- the required parking stalls (Annex IV, with its rounding rule, its
  local-street waiver and its 20% light-rail reduction);
- the required sanitary fixtures (Annex III, band tables with
  "1/N m² ou fração" formulas).

Module by module:

| module | file | what it models |
|---|---|---|
| `Wrappers` | wrappers.dfy | `Option` |
| `Props` | props.dfy | property values; `get_prop`, `_safe_get`; `ensure_properties_keys` |
| `Envelope` | envelope.dfy | `envelope_area` and its three corner regimes |
| `Rounding` | rounding.dfy | floor, ceiling, truncation, round-half-even; `round_rule_annex_iv` |
| `Divisor` | divisor.dfy | `_parse_formula_divisor` (the regular expression written out as a scanner), `_ceil_div` |
| `Sanitary` | sanitary.dfy | `calc_sanitary` |
| `Parking` | parking.dfy | `calc_parking_v2` |
| `Urbanism` | urbanism.dfy | `estimate_pavimentos`, `compute_urbanism`, `build_leigo_simulation` |
| `Spatial` | spatial.dfy | the map-side index building and lookups of core/app_main.py |
| `Engine` | engine.dfy | the `GeoEngine` class of parking_v2.py |

Geometry stays abstract. A feature's geometry is a type parameter. The
geometry predicates are function parameters: "contains or intersects the
click" (`covers`) and "prepared geometry contains the click" (`contains`).
The metric distance to the click is also a parameter (`distance`). The
spatial tree's query result is a list of positions (`candidates`), and its
nearest-neighbour result is an optional position (`nearest`).

Each loop of the source is a method proved equal to a specification
function:

- `EnsurePropertiesKeys`, `CalcSanitary` and `CalcParkingV2`;
- `FindZoneForClick` in both lookups;
- `GeoEngine.FindNearestStreet`;
- `ComputeUrbanism`, which fills its result field by field.

The properties the source promises are stated on those functions and as
lemmas about them.

Numbers are exact `real`s. Python's `round` is modelled as round-half-even
on the exact value. `round(x, 1)` rounds `10·x` half-even and divides by
ten. `int(float)` truncates toward zero and `//` floors.

Two points where the code does something other than a plain reading of its
documented intent; the model follows the code:

- **Annex IV rounding.** The rule's docstring (core/app_main.py:371-374)
  reads as a test on the tenths digit, under which 2.49 would give 2. The
  code first rounds to one decimal, so 2.49 becomes 2.5 and gives 3
  (`Rounding.AnnexIVExamples`). `Rounding.AnnexIVIsTenthsDigitRule` proves
  the code equal to the tenths-digit test applied to the value rounded to
  tenths.
- **Street fallback.** `GeoEngine.find_nearest_street` scans all streets
  only when the tree query returned no candidate. The street found is the
  nearest candidate even when a closer street was not among the candidates
  (`Engine.GeoEngine.StreetFor`).

## Model

| member | source | states |
|---|---|---|
| Props.SafeGet | parking_v2.py:12-16 | the value of the first alias, in list order, whose value is present and neither None nor ""; the default when there is none; the result is always the default or one of the filled values |
| Props.GetProp | core/app_main.py:108-113 | the text of the first filled alias, or "" when no alias is filled |
| Props.SafeGetFoundIffFilled | parking_v2.py:12-16 | with default None, a value is found iff some alias is filled |
| Props.GetPropEmptyIffNoneFilled | core/app_main.py:108-113 | the text is "" iff no alias is filled (given that `str()` of a filled value is never empty) |
| Props.NormalizeProps | core/app_main.py:133-142 | after normalisation the keys are the old keys plus every listed key; a listed key that was missing or None becomes "", every other value is unchanged |
| Props.NormalizePropsIdempotent | core/app_main.py:133-142 | normalising an already normalised mapping changes nothing |
| Props.EnsureKeys | core/app_main.py:137-140 | the key loop on one feature's properties yields exactly the normalised mapping |
| Props.EnsurePropertiesKeys | core/app_main.py:133-142 | a feature list of the same length in which each feature is normalised (a null properties mapping read as `{}`); the input list is a value and is not changed |
| Envelope.ClampZero | core/app_main.py:265-266 | `max(x, 0.0)`: non-negative, at least x, and either x or 0 |
| Envelope.EnvelopeArea | core/app_main.py:244-298 | usable width and depth are never negative, the core area is their product, the depth is `depth − front − rear` clamped, and the regime tag is mid-block iff not a corner and two-front corner iff corner with two fronts |
| Envelope.OneFrontCornerIsMidBlock | core/app_main.py:260-298 | a corner without two fronts has the same width, depth and area as a mid-block lot, namely `frontage − 2·lateral` (`frontage − lateral` when attached on one side); only the regime tag differs |
| Envelope.TwoFrontsWidth | core/app_main.py:274-278 | on a two-front corner the width is `frontage − front − lateral`, and attaching one side drops only the lateral term |
| Envelope.OverconstrainedIsEmpty | core/app_main.py:260-298 | when front plus rear reach the depth, or the lateral setbacks (front plus lateral on a two-front corner) reach the frontage, the core area is 0 |
| Envelope.SetbacksShrinkCore | core/app_main.py:244-298 | larger setbacks never give a wider, deeper or larger core |
| Envelope.MidBlockExample | core/app_main.py:260-272 | a 10 × 30 mid-block lot with setbacks front 5, lateral 1.5, rear 3 has a 7 × 22 core of 154 m² |
| Rounding.Floor | core/app_main.py:378 | `math.floor`: the greatest integer not above x |
| Rounding.Ceil | core/app_main.py:516 | `math.ceil`: the least integer not below x |
| Rounding.Trunc | core/app_main.py:998 | `int(x)`: truncation toward zero, bounded on both sides |
| Rounding.RoundHalfEven | core/app_main.py:1045 | the nearest integer, within one half of x, and even on an exact tie |
| Rounding.RoundHalfEvenMonotone | core/app_main.py:377 | round-half-even is monotone |
| Rounding.RoundTenth | core/app_main.py:377 | `round(x, 1)`: a whole number of tenths within 0.05 of x; on an exact tie between two tenths, the one with an even number of tenths |
| Rounding.RoundRuleAnnexIV | core/app_main.py:370-382 | 0 for x ≤ 0; otherwise x rounded to one decimal, plus one when its fractional part is at least 0.5; never negative; within 0.55 of x |
| Rounding.AnnexIVIsTenthsDigitRule | core/app_main.py:370-382 | the rule equals the reference reading "whole part of the rounded tenths, plus one when the tenths digit is 5 or more" |
| Rounding.AnnexIVMonotone | core/app_main.py:370-382 | a larger raw value never needs fewer stalls |
| Rounding.AnnexIVExamples | core/app_main.py:370-382 | 2.44 → 2, 2.5 → 3, 2.51 → 3, 2.46 → 3, 2.49 → 3, and the exact tie 2.45 → 2 (the program's binary 2.45 lies above the tie and gives 3) |
| Divisor.SkipSpaces | core/app_main.py:308 | the `\s*` of the pattern: the end of the run of spaces starting at i |
| Divisor.SkipNumber | core/app_main.py:308 | the `[\d\.,]+` of the pattern: the end of the run of digits, dots and commas starting at i |
| Divisor.MatchAt | core/app_main.py:308 | a match starting at i captures a non-empty run of number characters after the `1/` |
| Divisor.Search | core/app_main.py:308 | `re.search`: the match at the first position at or after i where the pattern matches, with every earlier position failing; none iff no position matches |
| Divisor.SearchFindsFirst | core/app_main.py:308 | a match at p, with no match at any earlier position, is the match the search reports |
| Divisor.Normalize | core/app_main.py:311 | the dots are dropped (the text shrinks by their number), every comma becomes a dot, the digits are kept; in a text without dots each character stays in place and a comma becomes '.' |
| Divisor.DecimalValue | core/app_main.py:312-315 | `float(raw)` on digits and dots: a value iff there is a digit and at most one dot (otherwise the caught exception gives None); never negative |
| Divisor.DigitsOnlyValue | core/app_main.py:312-313 | a non-empty digit string reads as its integer value |
| Divisor.OneDotValue | core/app_main.py:312-313 | `<whole>.<frac>` reads as the value of the whole digits plus the fraction digits over 10 to the number of fraction digits |
| Divisor.ParseFormulaDivisor | core/app_main.py:304-315 | None for an empty formula and for a formula with no match; otherwise the divisor read from the captured run of the first match |
| Divisor.CapturedDivisor | core/app_main.py:311-315 | the captured run is read iff it holds a digit and at most one comma, and the value read is never negative |
| Divisor.CeilDiv | core/app_main.py:318-319 | 0 when the divisor is 0; for a positive divisor, the least integer r with `r·b ≥ a` |
| Divisor.ParseWrittenDivisor | core/app_main.py:304-315 | for every natural number n, the formula `1/<n>m` parses to n |
| Divisor.CommaBecomesPoint | core/app_main.py:311 | a decimal comma between two digit strings becomes the decimal point |
| Divisor.ParseWrittenDecimalDivisor | core/app_main.py:304-315 | for every natural w and digit string f, the formula `1/<w>,<f>m` parses to w plus the fraction f writes |
| Divisor.ParseTableFormula | core/app_main.py:304-315 | "1/300,00m² ou fração" parses to 300 |
| Sanitary.FirstBand | core/app_main.py:333-338 | the first band whose range (min ≤ area ≤ max, no max meaning unbounded; the empty band `{}` reads as min 0 without max) contains the area; none only when no band does |
| Sanitary.FixtureCount | core/app_main.py:344-354 | no entry gives None; a stored integer is kept, a float is truncated toward zero and a boolean counts 1 or 0 (`int(v)`); a text value gives None; with no value, a missing formula or an unparsable or zero divisor gives None, and otherwise the count is the ceiling of area over the divisor |
| Sanitary.BandCounts | core/app_main.py:343-354 | the chosen band's counts cover all four fixture keys |
| Sanitary.AddCountsAt | core/app_main.py:361-364 | adding one group touches each fixture key once: the key is in the totals afterwards iff it was before or the group gave an integer for it, and its total grows by exactly that integer |
| Sanitary.TotalsAt | core/app_main.py:329-366 | fixture k is in the totals iff some group contributes an integer for it, and its total is the sum of those contributions |
| Sanitary.TotalsAreSums | core/app_main.py:361-366 | the same, with "some group" stated as an existential over the group list |
| Sanitary.UnmatchedGroupIsSkipped | core/app_main.py:340-341 | a group with no matching band changes neither the totals nor the per-group table |
| Sanitary.EmptyBandSkipsGroup | core/app_main.py:333-341 | a group whose first matching band is the empty band `{}` (falsy) changes neither the totals nor the per-group table |
| Sanitary.EmptyBandExample | core/app_main.py:333-341 | a profile whose only group has the single band `{}` gives no group row and no totals |
| Sanitary.ChooseBand | core/app_main.py:333-338 | the band loop with break chooses the first matching band |
| Sanitary.CountBand | core/app_main.py:343-354 | the fixture loop yields the band's counts |
| Sanitary.Accumulate | core/app_main.py:361-364 | the totals loop adds one group's integer counts |
| Sanitary.CalcSanitary | core/app_main.py:322-367 | the result carries the area, the per-group table of first-band counts, and the totals proved above to be the sums of the integer counts |
| Parking.FirstRatioBand | core/app_main.py:455-462 | the first band of a `band_ratio` rule that contains the area |
| Parking.FirstYield | core/app_main.py:428-502 | the index of the first rule that yields a raw value; every earlier rule yields none; none only when no rule yields |
| Parking.TransitReduced | core/app_main.py:515-518 | `ceil(0.8·req)` is between 1 and req, and within one of 0.8·req |
| Parking.ParkingSpec | core/app_main.py:392-521 | the waiver gives raw 0, required 0 and no notes; otherwise, when no rule yields, raw, text and required are None, there is no adjustment, and the notes are those of every rule followed by "insufficient data"; when one does, raw and text are those of the first yielding rule, the notes are those of the rules before it, and required is the Annex IV rounding of the raw value, reduced by 20% (rounding up, and logged as an adjustment) near the light rail when positive |
| Parking.FirstYieldIgnoresTransit | core/app_main.py:428-502 | the light-rail flag plays no part in choosing the rule |
| Parking.TransitNeverIncreases | core/app_main.py:512-520 | near the light rail the requirement is never larger |
| Parking.FirstYieldAt | core/app_main.py:428-502 | a rule that yields, after rules that do not, is the first yield |
| Parking.ChooseRatioBand | core/app_main.py:455-462 | the band loop chooses the first containing band |
| Parking.EvalRule | core/app_main.py:429-502 | one step of the rule loop computes the rule's yield and notes |
| Parking.ScanRules | core/app_main.py:425-505 | the rule loop stops at the first yielding rule with its raw value and text, and keeps the notes of the rules it passed |
| Parking.CalcParkingV2 | core/app_main.py:392-521 | the method's result equals the specification `ParkingSpec`, so the first yielding rule decides raw value, text, notes and requirement |
| Urbanism.EstimateFloors | core/app_main.py:779-792 | a non-zero floor count is returned as is; otherwise a result exists iff a height is given, it is at least 1, exactly 1 for a height below 3 m, and for heights of 3 m or more the number of whole 3 m floors |
| Urbanism.GroundLimit | core/app_main.py:896-901 | the binding ground-floor area is the smaller of the occupancy area and the envelope area when both exist, otherwise whichever exists |
| Urbanism.PlaceOption | core/app_main.py:911-955 | a placement's core is the envelope of its setbacks, its maximum is the ground limit, and it is limited by the occupancy ratio iff the occupancy area is at most the envelope area |
| Urbanism.NoParkingRule | core/app_main.py:984-988 | single-family houses need 0 stalls; other uses have no figure |
| Urbanism.RatioArea | core/app_main.py:847-850 | a ratio area exists iff the ratio is recorded, and is the ratio times the lot area |
| Urbanism.Placements | core/app_main.py:908-972 | both options exist iff all three setbacks are recorded (otherwise the options fail); the standard option uses the district's setbacks, the Art. 112 option zero front and lateral setbacks, the rear setback and no attachment |
| Urbanism.OldParking | core/app_main.py:980-1054 | fixed gives the truncated value; per unit the larger of the truncated value and the minimum (0 when absent); per area the floor of lot area × value, raised to the minimum; the unit-area rule, given units and a unit area, its rounded stalls raised to the minimum; an unknown metric, or the unit-area rule without units or unit area, keeps the single-family default |
| Urbanism.UnitAreaStalls | core/app_main.py:1029-1045 | units times the rate for the unit size (below the threshold, or at or above it), rounded up, or else rounded to within one half |
| Urbanism.OldParkingRespectsMinimum | core/app_main.py:1002-1048 | every metric that reads `min_vagas` yields at least that minimum |
| Urbanism.ComputeUrbanism | core/app_main.py:795-1055 | lot area is frontage × depth; without a rule no ratio area, envelope, ground maximum, option or floor estimate; with one, each ratio area (occupancy, permeability, built, basement) exists iff its ratio is recorded and is ratio × lot area; the envelope exists iff all setbacks are recorded; the ground maximum is the ground limit; single-family houses get both placement options iff the envelope exists, the Art. 112 option being the envelope with zero front and lateral setbacks and the rear kept; other uses get none; the floor estimate and the parking fallback as above |
| Urbanism.Art112NeverSmaller | core/app_main.py:908-955 | with non-negative setbacks the Art. 112 option's core and ground maximum are at least the standard option's, and if the standard option is limited by occupancy so is Art. 112 |
| Urbanism.OccupancyBindsExample | core/app_main.py:896-955 | on the 10 × 30 lot with TO 0.5 the envelope is 154 m², the ground maximum 150 m², and the occupancy ratio is the limit |
| Urbanism.FloorsUsed | core/app_main.py:1081-1083 | the desired count when it is at least 1; with 0, the estimate when it is positive and otherwise 1; with a negative count, 1 |
| Urbanism.AutoTotal | core/app_main.py:1088-1095 | the smaller of the positive limits among the built-area maximum and the ground maximum times the floors; 0 when neither is positive |
| Urbanism.Footprint | core/app_main.py:1104 | the footprint times the floors is the total |
| Urbanism.Share | core/app_main.py:1115-1116 | a share exists iff the part exists and the lot area is positive, and share × lot area = part |
| Urbanism.Check | core/app_main.py:1123-1129 | a check exists iff its limit is known, and passes iff the value is within the limit plus the 1e-9 tolerance |
| Urbanism.Reasons | core/app_main.py:1133-1156 | "above the built maximum" or "above the ground maximum" is listed iff a project-mode check failed; each "missing" reason is listed iff its limit is missing |
| Urbanism.Size | core/app_main.py:1081-1112 | the floors used, the desired or automatic total, a footprint spread evenly over the floors, and the usable area or the total |
| Urbanism.Assess | core/app_main.py:1114-1186 | the mode, the limit checks, viability (always in automatic mode, otherwise iff no check failed) and the reasons |
| Urbanism.LeigoSimulation | core/app_main.py:1058-1186 | at least one floor with the total spread evenly; automatic mode iff no positive total is desired; each check exists iff its limit is known and passes iff within tolerance; automatic mode is always viable; a project is viable iff no check failed; the reasons listed match the failed checks and missing limits |
| Urbanism.AutoModeWithinLimits | core/app_main.py:1088-1129 | in automatic mode the proposed total passes the built-area check and the ground-floor check whenever those maxima are positive |
| Urbanism.SpreadWithinLimit | core/app_main.py:1094-1125 | a total within `limit` per floor puts at most `limit` on each floor |
| Spatial.IndexEntries | core/app_main.py:549-566 | the index has at most one entry per feature, and every entry comes from a feature with a geometry |
| Spatial.IndexEntriesAppend | core/app_main.py:551-562 | indexing is compositional over concatenation of the feature list |
| Spatial.IndexKeepsAllWhenValid | core/app_main.py:549-566 | when every feature has a usable geometry, entry i is feature i's, so positions agree with the feature list |
| Spatial.BuildIndex | core/app_main.py:549-566 | the feature loop builds exactly that index |
| Spatial.BuildStreetIndex | core/app_main.py:604-621 | the street loop builds the index of projected geometries, each from a feature with a geometry |
| Spatial.FirstCovering | core/app_main.py:582-589 | the props of the first candidate whose geometry contains or touches the click; none iff no candidate does |
| Spatial.FindZoneForClick | core/app_main.py:569-600 | no index gives none; otherwise the first covering candidate's props, which belong to some covering zone |
| Spatial.ZoneHitComplete | core/app_main.py:569-600 | when the query returns every covering zone, none is found iff no zone covers the click |
| Spatial.UniqueZoneFound | core/app_main.py:569-600 | when exactly one zone covers the click and the query returns it, that zone is found |
| Spatial.NearestStreet | core/app_main.py:624-655 | a street is found iff there is an index, a nearest position inside it, and its distance is at most the radius (a distance equal to the radius is accepted); the result is that street's props |
| Spatial.StreetRadiusMonotone | core/app_main.py:624-655 | a larger radius keeps the street found |
| Spatial.LocationOf | core/app_main.py:662-675 | the raw mappings are the found props or `{}`; each field is `get_prop` over the found props (`{}` when none) with the source's alias list: sigla, SIGLA, zona_sigla, ZONA_SIGLA, name; zona, ZONA, nome, NOME; log_ofic, LOG_OFIC, name, NOME; hierarquia, HIERARQUIA |
| Spatial.LocationFieldsFound | core/app_main.py:662-675 | each field is "" iff nothing was found or the props found fill none of its aliases |
| Spatial.ComputeLocation | core/app_main.py:658-675 | the summary of the zone found and the nearest street within 120 m |
| Engine.Summary | parking_v2.py:114-127 | the raw props as found; each field is `_safe_get` with default None over the found props (`{}` when none) with the source's alias list: sigla, SIGLA; zona, nome, NOME, ZONA; log_ofic, LOG_OFIC, nome, NOME; hierarquia, HIERARQUIA |
| Engine.SummaryFieldsFound | parking_v2.py:114-118 | each field is None iff nothing was found or the props found fill none of its aliases |
| Engine.GeoEngine.constructor | parking_v2.py:37-57 | zone geometries and props follow the zone features, and street geometries are the projected street geometries |
| Engine.GeoEngine.FirstContaining | parking_v2.py:70-78 | the first zone of the order whose geometry contains the click; none iff none does |
| Engine.GeoEngine.ZoneFor | parking_v2.py:66-80 | the zone chosen contains the click; none iff no zone at all contains it |
| Engine.GeoEngine.FindZoneForClick | parking_v2.py:66-80 | the two loops return the chosen zone's props, or none |
| Engine.GeoEngine.ZoneFoundIffContained | parking_v2.py:66-80 | a zone is found iff some zone contains the click |
| Engine.GeoEngine.UniqueZoneChosen | parking_v2.py:66-80 | when exactly one zone contains the click, it is chosen |
| Engine.GeoEngine.Closest | parking_v2.py:89-101 | none iff the order is empty; otherwise a street of the order whose distance is the minimum over the order |
| Engine.GeoEngine.NearestAmong | parking_v2.py:86-93 | the strict `<` loop from infinity yields exactly that closest street and distance |
| Engine.GeoEngine.StreetFor | parking_v2.py:82-108 | the street found is the one `Closest` picks over the candidates (over every street when there are none): the minimum distance, the earliest on ties; it lies within the radius and is returned as its props plus `_dist_m`; with candidates, none iff every candidate is beyond the radius; without, none iff every street is |
| Engine.GeoEngine.FindNearestStreet | parking_v2.py:82-108 | the candidate pass, then the full pass only when no candidate was found, then the radius cutoff, give exactly that street |
| Engine.GeoEngine.FallbackIsNearestOfAll | parking_v2.py:95-108 | without candidates the street found is at most as far as every street |
| Engine.GeoEngine.StreetRadiusMonotone | parking_v2.py:103-108 | a larger radius keeps the street found and its distance |
| Engine.GeoEngine.ComputeLocation | parking_v2.py:110-127 | the summary of the zone chosen and the street found within 120 m |

## Left out

- The Streamlit page, the folium map, session state and all rendering (`fmt_*`, `popup_html`, `color_for_zone`, `zone_style`, the report and lay-reader renderers) are presentation.
- Supabase queries and the client are network I/O. The zone rule, the parking rule and the sanitary profile are inputs.
- GeoJSON file loading and the caching decorators are file I/O.
- shapely and pyproj are foreign libraries. Shape construction, `prep`, the STRtree and its query and nearest results, containment, intersection, distance and the EPSG:4326 → EPSG:3857 projection are all parameters.
- A geometry that raises inside `shape(...)` is a feature whose `shape` parameter gives none.
- An exception inside a geometry predicate is not modelled. The predicates are total.
- The type sniffing between index and geometry results (`_is_index`, `_tree_returns_indices`) is not modelled. Tree results are positions.
- Negative positions (Python's wrap-around indexing) are not modelled.
- Spatial.NearestStreet: the geometry-returning tree variant, which maps a geometry back to a position through `id`, is covered only by that position being an input.
- Engine.GeoEngine.FindNearestStreet: candidates are required to be valid street positions, because the tree only returns its own geometries. The `id`-to-position lookup that could miss is left out.
- `safe_eval_condition` calls `eval` and is not modelled. A per-unit rule's condition is an already evaluated boolean.
- Floating point is left out. Arithmetic is on exact reals, so binary rounding artefacts (such as 2.675 not being a tie, or 2.45 lying above one) do not occur. Python's `round` is modelled as half-even on the exact value.
- Upper-casing of the use code and the `\d` class cover ASCII only. Unicode case mappings and digits are left out. `\s` covers the characters for which `str.isspace()` holds.
- Python `str()` of a property value is the parameter `show`.
- Rule and profile records are typed. A missing numeric field that would make `float(None)` raise in the source is not representable, except where the source catches it: a `fixed` rule's value and the placement options.
- A non-numeric count value is `Str`. Floats and booleans are stored as Python would convert them.
- Engine.GeoEngine.constructor: a feature whose `properties` is null is read as `{}`, where the source would store None.
- An empty rule dictionary counts as "no rule".
- Display texts and pass-through fields are left out: the sanitary `_note`, the `vagas_texto` and motorcycle texts, `total_mode` and `area_util_mode`, `limits`, the echoed inputs, `cargo_loading_text` and `general_notes`.
- Only the fields of `compute_urbanism` that are computed are modelled. Fields copied from the rule record are not.
- `ia_min` and the basement ratio are carried but not checked by any modelled operation, as in the source.
- The stray statements in the lay-reader block of the page (an undefined `sim`) are part of the page and are not modelled.
- core/viabilidade_res_unifamiliar.py is not part of this model; it repeats `envelope_area` inside a page with a fixed lot.
- core/zone_rules_repository.py, core/utils_format.py, core/report_unifamiliar.py, core/leigo_unifamiliar.py and app.py are not part of this model.
