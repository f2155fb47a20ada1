/**
 * Sanitary fixture counts (Annex III): `calc_sanitary` (core/app_main.py).
 * A profile is a list of groups; each group takes the first area band that
 * contains the usable area and yields, per fixture type, either a fixed count
 * or `ceil(area / divisor)` read from a formula. Totals add up the integer
 * counts of every group that found a band.
 */
module Sanitary {
  import opened Wrappers
  import opened Props
  import opened Rounding
  import opened Divisor

  /** The four fixture keys, in the order the source visits them. */
  datatype Fixture = Lavatories | Toilets | Showers | Urinals

  const FixtureKeys: seq<Fixture> := [Lavatories, Toilets, Showers, Urinals]

  /**
   * What a band says about one fixture: the count stored under the key (Null when
   * absent or None) and the text stored under the key's `_formula` companion
   * ("" when absent, None or empty).
   */
  datatype FixtureEntry = FixtureEntry(value: Value, formula: string)

  /**
   * An area band: `min_m2`, optional `max_m2` (absent means unbounded) and the
   * fixture entries; or the empty band `{}`, which reads as `min_m2` 0 with no
   * maximum but is falsy, so a group that chooses it is skipped.
   */
  datatype Band = EmptyBand | Band(minM2: real, maxM2: Option<real>, entries: map<Fixture, FixtureEntry>)

  /** The fixture entries of a band (none for the empty band). */
  function Entries(b: Band): map<Fixture, FixtureEntry> {
    if b.EmptyBand? then map[] else b.entries
  }

  /** A profile group: its name ("" when absent, shown as "GERAL") and its bands. */
  datatype Group = Group(name: string, bands: seq<Band>)

  /** The result: the area used, the counts per group name, and the totals per fixture. */
  datatype SanitaryResult = SanitaryResult(area: real, groups: map<string, map<Fixture, Option<int>>>,
                                           totals: map<Fixture, int>)

  predicate InBand(b: Band, area: real) {
    match b
    case EmptyBand => area >= 0.0
    case Band(lo, hi, _) => area >= lo && (hi.None? || area <= hi.value)
  }

  /** The index of the first band that contains `area`. */
  function FirstBand(bands: seq<Band>, area: real): (r: Option<nat>)
    ensures r.Some? ==> r.value < |bands| && InBand(bands[r.value], area)
                        && forall j :: 0 <= j < r.value ==> !InBand(bands[j], area)
    ensures r.None? ==> forall j :: 0 <= j < |bands| ==> !InBand(bands[j], area)
  {
    if bands == [] then None
    else if InBand(bands[0], area) then Some(0)
    else
      var r := FirstBand(bands[1..], area);
      assert forall j :: 1 <= j < |bands| ==> bands[j] == bands[1..][j - 1];
      if r.None? then None else Some(r.value + 1)
  }

  /** The count a band gives for fixture `k`, or None when it gives none. */
  function FixtureCount(b: Band, k: Fixture, area: real): (r: Option<int>)
    ensures k !in Entries(b) ==> r.None?
    ensures k in Entries(b) && Entries(b)[k].value.Int? ==> r == Some(Entries(b)[k].value.i)
    ensures k in Entries(b) && Entries(b)[k].value.Num? ==> r == Some(Trunc(Entries(b)[k].value.r))
    ensures k in Entries(b) && Entries(b)[k].value.Bool? ==> r == Some(if Entries(b)[k].value.b then 1 else 0)
    ensures k in Entries(b) && Entries(b)[k].value.Str? ==> r.None?
    ensures k in Entries(b) && Entries(b)[k].value == Null && Entries(b)[k].formula == "" ==> r.None?
    ensures k in Entries(b) && Entries(b)[k].value == Null && Entries(b)[k].formula != "" ==>
              var d := ParseFormulaDivisor(Entries(b)[k].formula);
              (d.None? || d.value == 0.0 ==> r.None?)
              && (d.Some? && d.value > 0.0 ==> r == Some(CeilDiv(area, d.value)))
  {
    if k !in Entries(b) then None
    else
      var e := Entries(b)[k];
      match e.value
      case Int(i) => Some(i)
      case Num(x) => Some(Trunc(x))
      case Bool(t) => Some(if t then 1 else 0)
      case Str(_) => None
      case Null =>
        if e.formula == "" then None
        else
          var d := ParseFormulaDivisor(e.formula);
          if d.Some? && d.value != 0.0 then Some(CeilDiv(area, d.value)) else None
  }

  /** The per-fixture counts of one band. */
  function BandCounts(b: Band, area: real): (m: map<Fixture, Option<int>>)
    ensures forall k :: k in m
  {
    AllFixturesListed();
    map k | k in FixtureKeys :: FixtureCount(b, k, area)
  }

  lemma AllFixturesListed()
    ensures forall k :: k in FixtureKeys
  {
    forall k ensures k in FixtureKeys {
      match k
      case Lavatories => assert FixtureKeys[0] == k;
      case Toilets => assert FixtureKeys[1] == k;
      case Showers => assert FixtureKeys[2] == k;
      case Urinals => assert FixtureKeys[3] == k;
    }
  }

  /** The counts a group contributes: those of its first matching band, or None when no band matches or that band is `{}`. */
  function GroupCounts(g: Group, area: real): Option<map<Fixture, Option<int>>> {
    match FirstBand(g.bands, area)
    case None => None
    case Some(i) => if g.bands[i].EmptyBand? then None else Some(BandCounts(g.bands[i], area))
  }

  /** Add the integer counts of one group to the running totals, visiting `keys` in order. */
  function AddCounts(totals: map<Fixture, int>, counts: map<Fixture, Option<int>>, keys: seq<Fixture>): map<Fixture, int>
  {
    if keys == [] then totals
    else
      var t := AddCounts(totals, counts, keys[..|keys| - 1]);
      var k := keys[|keys| - 1];
      if k in counts && counts[k].Some? then t[k := (if k in t then t[k] else 0) + counts[k].value] else t
  }

  /** Totals after visiting the groups in order. */
  function Totals(groups: seq<Group>, area: real): map<Fixture, int> {
    if groups == [] then map[]
    else
      var t := Totals(groups[..|groups| - 1], area);
      match GroupCounts(groups[|groups| - 1], area)
      case None => t
      case Some(c) => AddCounts(t, c, FixtureKeys)
  }

  /** The displayed name of a group. */
  function GroupName(g: Group): string {
    if g.name == "" then "GERAL" else g.name
  }

  /** The per-group table after visiting the groups in order (a later group of the same name replaces an earlier one). */
  function GroupTable(groups: seq<Group>, area: real): map<string, map<Fixture, Option<int>>> {
    if groups == [] then map[]
    else
      var t := GroupTable(groups[..|groups| - 1], area);
      var g := groups[|groups| - 1];
      match GroupCounts(g, area)
      case None => t
      case Some(c) => t[GroupName(g) := c]
  }

  /** The contribution of one group to the total of fixture `k`. */
  function Contribution(g: Group, area: real, k: Fixture): int {
    match GroupCounts(g, area)
    case None => 0
    case Some(c) => if c[k].Some? then c[k].value else 0
  }

  predicate Contributes(g: Group, area: real, k: Fixture) {
    GroupCounts(g, area).Some? && GroupCounts(g, area).value[k].Some?
  }

  /** Reference definition: the plain sum of the contributions to fixture `k`. */
  function SumFor(groups: seq<Group>, area: real, k: Fixture): int {
    if groups == [] then 0
    else SumFor(groups[..|groups| - 1], area, k) + Contribution(groups[|groups| - 1], area, k)
  }

  /** Adding one group's counts touches each key once. */
  lemma {:induction false} AddCountsAt(totals: map<Fixture, int>, counts: map<Fixture, Option<int>>,
                                       keys: seq<Fixture>, k: Fixture)
    requires forall i, j :: 0 <= i < j < |keys| ==> keys[i] != keys[j]
    ensures var t := AddCounts(totals, counts, keys);
            && (k in t <==> k in totals || (k in keys && k in counts && counts[k].Some?))
            && (k in t ==> t[k] == (if k in totals then totals[k] else 0)
                                   + (if k in keys && k in counts && counts[k].Some? then counts[k].value else 0))
  {
    if keys != [] {
      var init := keys[..|keys| - 1];
      assert forall x :: x in keys <==> x in init || x == keys[|keys| - 1];
      AddCountsAt(totals, counts, init, k);
    }
  }

  /** Some group of `groups` contributes an integer count for `k` (checked from the last group back). */
  predicate SomeContributes(groups: seq<Group>, area: real, k: Fixture) {
    groups != [] && (SomeContributes(groups[..|groups| - 1], area, k) || Contributes(groups[|groups| - 1], area, k))
  }

  lemma {:induction false} SomeContributesExists(groups: seq<Group>, area: real, k: Fixture)
    ensures SomeContributes(groups, area, k) <==> exists i :: 0 <= i < |groups| && Contributes(groups[i], area, k)
  {
    if groups != [] {
      var init := groups[..|groups| - 1];
      SomeContributesExists(init, area, k);
      assert forall i :: 0 <= i < |init| ==> init[i] == groups[i];
    }
  }

  /** The step of the totals proof: the totals of `k` after each group, against the reference sum. */
  lemma {:induction false} TotalsAt(groups: seq<Group>, area: real, k: Fixture)
    ensures var t := Totals(groups, area);
            && (k in t <==> SomeContributes(groups, area, k))
            && (k in t ==> t[k] == SumFor(groups, area, k))
            && (k !in t ==> SumFor(groups, area, k) == 0)
  {
    if groups != [] {
      var init, g := groups[..|groups| - 1], groups[|groups| - 1];
      TotalsAt(init, area, k);
      if GroupCounts(g, area).Some? {
        AllFixturesListed();
        AddCountsAt(Totals(init, area), GroupCounts(g, area).value, FixtureKeys, k);
      }
    }
  }

  /**
   * The totals agree with the reference sum: fixture `k` has a total exactly
   * when some group contributes an integer count for it, and the total is the
   * sum of the contributions.
   */
  lemma TotalsAreSums(groups: seq<Group>, area: real, k: Fixture)
    ensures var t := Totals(groups, area);
            && (k in t <==> exists i :: 0 <= i < |groups| && Contributes(groups[i], area, k))
            && (k in t ==> t[k] == SumFor(groups, area, k))
            && (k !in t ==> SumFor(groups, area, k) == 0)
  {
    TotalsAt(groups, area, k);
    SomeContributesExists(groups, area, k);
  }

  /** A group for which no band matches is skipped: it changes neither the totals nor the group table. */
  lemma {:induction false} UnmatchedGroupIsSkipped(groups: seq<Group>, g: Group, area: real)
    requires forall j :: 0 <= j < |g.bands| ==> !InBand(g.bands[j], area)
    ensures Totals(groups + [g], area) == Totals(groups, area)
    ensures GroupTable(groups + [g], area) == GroupTable(groups, area)
  {
    assert (groups + [g])[..|groups|] == groups;
  }

  /** A group whose first matching band is the empty band `{}` is skipped like a group with no match. */
  lemma {:induction false} EmptyBandSkipsGroup(groups: seq<Group>, g: Group, area: real)
    requires FirstBand(g.bands, area).Some? && g.bands[FirstBand(g.bands, area).value].EmptyBand?
    ensures Totals(groups + [g], area) == Totals(groups, area)
    ensures GroupTable(groups + [g], area) == GroupTable(groups, area)
  {
    assert (groups + [g])[..|groups|] == groups;
  }

  /** A profile whose only group has the single band `{}` gives no group row and no totals for any usable area. */
  lemma EmptyBandExample(area: real)
    requires area >= 0.0
    ensures GroupTable([Group("A", [EmptyBand])], area) == map[]
    ensures Totals([Group("A", [EmptyBand])], area) == map[]
  {
    assert InBand(EmptyBand, area);
    EmptyBandSkipsGroup([], Group("A", [EmptyBand]), area);
  }

  /** The band search of `calc_sanitary`: stop at the first band containing the area. */
  method ChooseBand(bands: seq<Band>, area: real) returns (chosen: Option<nat>)
    ensures chosen == FirstBand(bands, area)
  {
    chosen := None;
    var j := 0;
    while j < |bands|
      invariant 0 <= j <= |bands|
      invariant forall n :: 0 <= n < j ==> !InBand(bands[n], area)
    {
      if InBand(bands[j], area) {
        chosen := Some(j);
        break;
      }
      j := j + 1;
    }
  }

  /** The per-fixture loop of `calc_sanitary` over the chosen band. */
  method CountBand(b: Band, area: real) returns (gvals: map<Fixture, Option<int>>)
    ensures gvals == BandCounts(b, area)
  {
    gvals := map[];
    var j := 0;
    while j < |FixtureKeys|
      invariant 0 <= j <= |FixtureKeys|
      invariant gvals == map k | k in FixtureKeys[..j] :: FixtureCount(b, k, area)
    {
      var k := FixtureKeys[j];
      gvals := gvals[k := FixtureCount(b, k, area)];
      assert FixtureKeys[..j + 1] == FixtureKeys[..j] + [k];
      j := j + 1;
    }
    assert FixtureKeys[..j] == FixtureKeys;
  }

  /** The accumulation loop of `calc_sanitary`: add the integer counts of one group to the totals. */
  method Accumulate(totals: map<Fixture, int>, gvals: map<Fixture, Option<int>>) returns (t: map<Fixture, int>)
    ensures t == AddCounts(totals, gvals, FixtureKeys)
  {
    t := totals;
    var j := 0;
    while j < |FixtureKeys|
      invariant 0 <= j <= |FixtureKeys|
      invariant t == AddCounts(totals, gvals, FixtureKeys[..j])
    {
      var k := FixtureKeys[j];
      assert FixtureKeys[..j + 1][..j] == FixtureKeys[..j];
      if k in gvals && gvals[k].Some? {
        t := t[k := (if k in t then t[k] else 0) + gvals[k].value];
      }
      j := j + 1;
    }
    assert FixtureKeys[..j] == FixtureKeys;
  }

  /** `calc_sanitary(profile_json, area_util_m2)`. */
  method CalcSanitary(groups: seq<Group>, area: real) returns (res: SanitaryResult)
    ensures res.area == area
    ensures res.totals == Totals(groups, area)
    ensures res.groups == GroupTable(groups, area)
  {
    var table: map<string, map<Fixture, Option<int>>> := map[];
    var totals: map<Fixture, int> := map[];
    var i := 0;
    while i < |groups|
      invariant 0 <= i <= |groups|
      invariant totals == Totals(groups[..i], area)
      invariant table == GroupTable(groups[..i], area)
    {
      var g := groups[i];
      assert groups[..i + 1][..i] == groups[..i];
      var chosen := ChooseBand(g.bands, area);
      if chosen.Some? && !g.bands[chosen.value].EmptyBand? {
        var gvals := CountBand(g.bands[chosen.value], area);
        table := table[GroupName(g) := gvals];
        totals := Accumulate(totals, gvals);
      }
      i := i + 1;
    }
    assert groups[..i] == groups;
    res := SanitaryResult(area, table, totals);
  }
}
