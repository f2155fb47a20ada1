/**
 * Feature property mappings: the ordered key-alias lookups `get_prop`
 * (core/app_main.py) and `_safe_get` (parking_v2.py), and the normalisation
 * `ensure_properties_keys` that guarantees every zoning feature carries a
 * fixed set of keys.
 */
module Props {
  import opened Wrappers

  /** A JSON scalar stored under a property key. */
  datatype Value = Null | Str(s: string) | Int(i: int) | Num(r: real) | Bool(b: bool)

  /** The property mapping of one feature. */
  type PropMap = map<string, Value>

  /** A GeoJSON feature: a geometry of type `G` and an optional (possibly null) property mapping. */
  datatype Feature<G> = Feature(geometry: G, properties: Option<PropMap>)

  /** Key `k` is present in `props` with a value other than None and "". */
  predicate Filled(props: PropMap, k: string) {
    k in props && props[k] != Null && props[k] != Str("")
  }

  /**
   * `_safe_get(props, keys, default)`: the value of the first alias in `keys`, in
   * list order, that is filled; `default` when none is.
   */
  function SafeGet(props: PropMap, keys: seq<string>, default: Value): (r: Value)
    ensures forall i :: 0 <= i < |keys| && Filled(props, keys[i]) && (forall j :: 0 <= j < i ==> !Filled(props, keys[j]))
              ==> r == props[keys[i]]
    ensures (forall i :: 0 <= i < |keys| ==> !Filled(props, keys[i])) ==> r == default
    ensures r == default || exists i :: 0 <= i < |keys| && Filled(props, keys[i]) && r == props[keys[i]]
  {
    if keys == [] then default
    else if Filled(props, keys[0]) then props[keys[0]]
    else
      var r := SafeGet(props, keys[1..], default);
      assert forall i :: 1 <= i < |keys| ==> keys[i] == keys[1..][i - 1];
      r
  }

  /**
   * `get_prop(props, *keys)`: the text of the first filled alias, or "" when none is.
   * Python's `str()` of a property value is the parameter `show`.
   */
  function GetProp(props: PropMap, keys: seq<string>, show: Value -> string): (r: string)
    ensures forall i :: 0 <= i < |keys| && Filled(props, keys[i]) && (forall j :: 0 <= j < i ==> !Filled(props, keys[j]))
              ==> r == show(props[keys[i]])
    ensures (forall i :: 0 <= i < |keys| ==> !Filled(props, keys[i])) ==> r == ""
  {
    var v := SafeGet(props, keys, Null);
    if v == Null then "" else show(v)
  }

  /** Some alias in `keys` is filled in `props`. */
  predicate AnyFilled(props: PropMap, keys: seq<string>) {
    exists i :: 0 <= i < |keys| && Filled(props, keys[i])
  }

  /** With default None, `_safe_get` finds a value exactly when some alias is filled. */
  lemma {:induction false} SafeGetFoundIffFilled(props: PropMap, keys: seq<string>)
    ensures SafeGet(props, keys, Null) != Null <==> AnyFilled(props, keys)
  {
    if keys != [] && !Filled(props, keys[0]) {
      SafeGetFoundIffFilled(props, keys[1..]);
      assert AnyFilled(props, keys) ==> AnyFilled(props, keys[1..]) by {
        if AnyFilled(props, keys) {
          var i :| 0 <= i < |keys| && Filled(props, keys[i]);
          assert keys[1..][i - 1] == keys[i];
        }
      }
      assert AnyFilled(props, keys[1..]) ==> AnyFilled(props, keys) by {
        if AnyFilled(props, keys[1..]) {
          var i :| 0 <= i < |keys[1..]| && Filled(props, keys[1..][i]);
          assert keys[i + 1] == keys[1..][i];
        }
      }
    } else if keys != [] {
      assert AnyFilled(props, keys) by { assert Filled(props, keys[0]); }
    }
  }

  /**
   * `get_prop` gives "" exactly when no alias is filled, as long as `str()` of a
   * filled value is never empty (true of Python's `str` on numbers, booleans and
   * non-empty strings).
   */
  lemma GetPropEmptyIffNoneFilled(props: PropMap, keys: seq<string>, show: Value -> string)
    requires forall v :: v != Null && v != Str("") ==> show(v) != ""
    ensures GetProp(props, keys, show) == "" <==> !AnyFilled(props, keys)
  {
    SafeGetFoundIffFilled(props, keys);
    var v := SafeGet(props, keys, Null);
    if v != Null {
      var i :| 0 <= i < |keys| && Filled(props, keys[i]) && v == props[keys[i]];
      assert show(v) != "";
    }
  }

  /** The property mapping after `ensure_properties_keys` has visited it with `keys`. */
  function NormalizeProps(props: PropMap, keys: seq<string>): (q: PropMap)
    ensures q.Keys == props.Keys + (set k | k in keys)
    ensures forall k :: k in keys ==> q[k] == (if k in props && props[k] != Null then props[k] else Str(""))
    ensures forall k :: k in props && k !in keys ==> q[k] == props[k]
  {
    map k | k in props.Keys + (set k | k in keys) ::
      if k in keys && (k !in props || props[k] == Null) then Str("") else props[k]
  }

  /** The feature after normalisation: `properties or {}`, then every key ensured. */
  function NormalizeFeature<G>(f: Feature<G>, keys: seq<string>): Feature<G> {
    Feature(f.geometry, Some(NormalizeProps(f.properties.GetOr(map[]), keys)))
  }

  /** Normalising twice is normalising once. */
  lemma NormalizePropsIdempotent(props: PropMap, keys: seq<string>)
    ensures NormalizeProps(NormalizeProps(props, keys), keys) == NormalizeProps(props, keys)
  {
    var q := NormalizeProps(props, keys);
    var q2 := NormalizeProps(q, keys);
    assert q2.Keys == q.Keys;
    forall k | k in q ensures q2[k] == q[k] {
      if k in keys {
        assert q[k] != Null;
      }
    }
  }

  /** Ensuring one more key extends the normalisation by that key. */
  lemma NormalizeStep(orig: PropMap, ks: seq<string>, k: string)
    ensures NormalizeProps(orig, ks + [k])
         == (var p := NormalizeProps(orig, ks); if k !in p || p[k] == Null then p[k := Str("")] else p)
  {
    var p := NormalizeProps(orig, ks);
    var lhs := NormalizeProps(orig, ks + [k]);
    var rhs := if k !in p || p[k] == Null then p[k := Str("")] else p;
    assert forall x :: x in ks + [k] <==> x in ks || x == k;
    assert lhs.Keys == rhs.Keys;
    forall x | x in lhs ensures lhs[x] == rhs[x] {
      if x != k && x !in ks {
        assert x !in ks + [k];
      }
    }
  }

  /** The inner loop of `ensure_properties_keys`: fill in the missing or None keys of one mapping. */
  method EnsureKeys(orig: PropMap, keys: seq<string>) returns (props: PropMap)
    ensures props == NormalizeProps(orig, keys)
  {
    props := orig;
    var j := 0;
    assert keys[..0] == [];
    while j < |keys|
      invariant 0 <= j <= |keys|
      invariant props == NormalizeProps(orig, keys[..j])
    {
      var k := keys[j];
      NormalizeStep(orig, keys[..j], k);
      if k !in props || props[k] == Null {
        props := props[k := Str("")];
      }
      assert keys[..j + 1] == keys[..j] + [k];
      j := j + 1;
    }
    assert keys[..j] == keys;
  }

  /**
   * `ensure_properties_keys(geojson, keys)`: a copy of the feature list in which each
   * feature's properties are normalised; the input (a value) is left as it was.
   */
  method EnsurePropertiesKeys<G>(features: seq<Feature<G>>, keys: seq<string>) returns (out: seq<Feature<G>>)
    ensures |out| == |features|
    ensures forall i :: 0 <= i < |out| ==> out[i] == NormalizeFeature(features[i], keys)
  {
    out := [];
    var i := 0;
    while i < |features|
      invariant 0 <= i <= |features|
      invariant |out| == i
      invariant forall n :: 0 <= n < i ==> out[n] == NormalizeFeature(features[n], keys)
    {
      var props := EnsureKeys(features[i].properties.GetOr(map[]), keys);
      out := out + [Feature(features[i].geometry, Some(props))];
      i := i + 1;
    }
  }
}
