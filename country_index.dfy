/**
  Country attribution: the ISO 3166-1 alpha-2 code of a boundary feature, the
  name/code lookup table built from the boundary dataset, and the resolution of
  a place to a code.
 */
module CountryIndex {
  import opened JsText
  import opened JsValue
  import opened Places

  /** The properties of one boundary feature (`f.properties || {}`). */
  type Props = map<string, Json>

  /** The property spellings of the alpha-2 code, tried in this order. */
  const CodeKeys: seq<string> := ["ISO3166-1-Alpha-2", "ISO_A2", "iso_a2", "ISO2"]

  /** The property spellings of the country name, tried in this order. */
  const NameKeys: seq<string> := ["name", "NAME"]

  /** `String(a || b || ... || "")`: the text of the first truthy property, or "". */
  function FirstText(props: Props, keys: seq<string>, conv: Coercion): string {
    match FirstTruthy(props, keys)
    case None => ""
    case Some(v) => ToStr(v, conv)
  }

  /** The upper-cased code of a feature, the same rule for the table and for shading. */
  function FeatureCode(props: Props, conv: Coercion): (r: string)
    ensures IsUpperCase(r)
  {
    UpperProperties(FirstText(props, CodeKeys, conv));
    Upper(FirstText(props, CodeKeys, conv))
  }

  /** The lower-cased (not trimmed) name of a feature. */
  function FeatureName(props: Props, conv: Coercion): (r: string)
    ensures FirstTruthy(props, NameKeys).None? ==> r == ""
    ensures FirstTruthy(props, NameKeys).Some? ==> r == Lower(ToStr(FirstTruthy(props, NameKeys).value, conv))
    ensures forall i :: 0 <= i < |r| ==> !('A' <= r[i] <= 'Z')
  {
    Lower(FirstText(props, NameKeys, conv))
  }

  /** The code is the upper-cased text of the first code property that is truthy,
      in the order of `CodeKeys`, and "" when none is. */
  lemma FeatureCodeFirstTruthy(props: Props, conv: Coercion, k: nat)
    requires k < |CodeKeys| && Truthy(Prop(JObj(props), CodeKeys[k]))
    requires forall j :: 0 <= j < k ==> !Truthy(Prop(JObj(props), CodeKeys[j]))
    ensures FeatureCode(props, conv) == Upper(ToStr(props[CodeKeys[k]], conv))
  {
    var r := FirstTruthy(props, CodeKeys);
    var i :| 0 <= i < |CodeKeys| && Prop(JObj(props), CodeKeys[i]) == r && Truthy(r)
             && forall j :: 0 <= j < i ==> !Truthy(Prop(JObj(props), CodeKeys[j]));
    assert i == k;
  }

  /** A feature none of whose code properties is truthy has the empty code. */
  lemma FeatureCodeMissing(props: Props, conv: Coercion)
    requires forall k :: 0 <= k < |CodeKeys| ==> !Truthy(Prop(JObj(props), CodeKeys[k]))
    ensures FeatureCode(props, conv) == ""
  {
  }

  /** The keys a feature writes into the table: its name when both name and code
      are non-empty, and its lower-cased code when the code is non-empty. */
  predicate Writes(props: Props, key: string, conv: Coercion) {
    var code := FeatureCode(props, conv);
    var name := FeatureName(props, conv);
    code != "" && (key == Lower(code) || (name != "" && key == name))
  }

  /** One step of the `forEach`: the table after `m.set(name, code)` and `m.set(lower(code), code)`. */
  function AddFeature(m: map<string, string>, props: Props, conv: Coercion): map<string, string> {
    var code := FeatureCode(props, conv);
    var name := FeatureName(props, conv);
    var m1 := if name != "" && code != "" then m[name := code] else m;
    if code != "" then m1[Lower(code) := code] else m1
  }

  /** The table after processing `features` in order. */
  function IndexOf(features: seq<Props>, conv: Coercion): map<string, string>
    decreases |features|
  {
    if features == [] then map[]
    else AddFeature(IndexOf(features[..|features| - 1], conv), features[|features| - 1], conv)
  }

  /** `countryNameToAlpha2`: an empty table when the dataset or its feature list is
      missing, otherwise the table of its features. */
  method BuildIndex(dataset: Option<seq<Props>>, conv: Coercion) returns (m: map<string, string>)
    ensures dataset.None? ==> m == map[]
    ensures dataset.Some? ==> m == IndexOf(dataset.value, conv)
  {
    m := map[];
    if dataset.None? {
      return;
    }
    var features := dataset.value;
    for i := 0 to |features|
      invariant m == IndexOf(features[..i], conv)
    {
      var props := features[i];
      var code := FeatureCode(props, conv);
      var name := FeatureName(props, conv);
      if name != "" && code != "" {
        m := m[name := code];
      }
      if code != "" {
        m := m[Lower(code) := code];
      }
      assert features[..i + 1][..i] == features[..i];
    }
    assert features[..|features|] == features;
  }

  /** One step adds exactly the keys the feature writes, maps them to its code and
      leaves every other entry alone. */
  lemma AddFeatureEffect(m: map<string, string>, props: Props, conv: Coercion, key: string)
    ensures key in AddFeature(m, props, conv) <==> key in m || Writes(props, key, conv)
    ensures Writes(props, key, conv) ==> AddFeature(m, props, conv)[key] == FeatureCode(props, conv)
    ensures !Writes(props, key, conv) && key in m ==> AddFeature(m, props, conv)[key] == m[key]
  {
  }

  /** Some feature writes `key` exactly when some feature before the last one
      does, or the last one does. */
  lemma WritesSplit(init: seq<Props>, last: Props, conv: Coercion, key: string)
    ensures (exists i :: 0 <= i < |init + [last]| && Writes((init + [last])[i], key, conv)) <==>
      (exists i :: 0 <= i < |init| && Writes(init[i], key, conv)) || Writes(last, key, conv)
  {
    assert forall i :: 0 <= i < |init| ==> (init + [last])[i] == init[i];
    assert (init + [last])[|init|] == last;
  }

  /** A key is in the table exactly when some feature writes it. */
  lemma {:induction false} IndexKeys(features: seq<Props>, conv: Coercion, key: string)
    ensures key in IndexOf(features, conv) <==> exists i :: 0 <= i < |features| && Writes(features[i], key, conv)
    decreases |features|
  {
    if features != [] {
      var init := features[..|features| - 1];
      var last := features[|features| - 1];
      assert features == init + [last];
      IndexKeys(init, conv, key);
      AddFeatureEffect(IndexOf(init, conv), last, conv, key);
      WritesSplit(init, last, conv, key);
    }
  }

  /** A feature that writes `key` sets it to its code. */
  lemma AddFeatureWrites(m: map<string, string>, props: Props, conv: Coercion, key: string)
    requires Writes(props, key, conv)
    ensures key in AddFeature(m, props, conv) && AddFeature(m, props, conv)[key] == FeatureCode(props, conv)
  {
  }

  /** A feature that does not write `key` leaves its entry alone. */
  lemma AddFeatureKeeps(m: map<string, string>, props: Props, conv: Coercion, key: string)
    requires !Writes(props, key, conv) && key in m
    ensures key in AddFeature(m, props, conv) && AddFeature(m, props, conv)[key] == m[key]
  {
  }

  /** Later features overwrite earlier ones: a key maps to the code of the last
      feature that writes it. */
  lemma {:induction false} IndexLastWriterWins(features: seq<Props>, conv: Coercion, key: string, i: nat)
    requires i < |features| && Writes(features[i], key, conv)
    requires forall j :: i < j < |features| ==> !Writes(features[j], key, conv)
    ensures key in IndexOf(features, conv)
    ensures IndexOf(features, conv)[key] == FeatureCode(features[i], conv)
    decreases |features|
  {
    var n := |features| - 1;
    var init := features[..n];
    if i == n {
      AddFeatureWrites(IndexOf(init, conv), features[n], conv, key);
    } else {
      assert init[i] == features[i];
      assert forall j :: i < j < n ==> init[j] == features[j];
      IndexLastWriterWins(init, conv, key, i);
      AddFeatureKeeps(IndexOf(init, conv), features[n], conv, key);
    }
  }

  /** Every value in the table is a non-empty upper-case code. */
  lemma {:induction false} IndexValuesAreCodes(features: seq<Props>, conv: Coercion)
    ensures forall k | k in IndexOf(features, conv) :: IndexOf(features, conv)[k] != ""
              && IsUpperCase(IndexOf(features, conv)[k])
    decreases |features|
  {
    if features != [] {
      IndexValuesAreCodes(features[..|features| - 1], conv);
    }
  }

  /** The place has a truthy `countryCode`. */
  predicate HasCode(p: Place) {
    p.countryCode.Some? && p.countryCode.value != ""
  }

  /** The key a place's country name is looked up under: trimmed, then lower-cased. */
  function CountryKey(p: Place): string {
    Lower(Trim(p.country))
  }

  /** `getAlpha2ForPlace`: a non-empty code wins; otherwise the table entry of the
      country name; otherwise null (`None`). A missing place resolves to null. */
  function Alpha2For(p: Option<Place>, index: map<string, string>): (r: Option<string>)
    ensures p.None? ==> r.None?
    ensures r.Some? ==> r.value != ""
  {
    match p
    case None => None
    case Some(pl) =>
      if HasCode(pl) then Some(Upper(pl.countryCode.value))
      else
        var key := CountryKey(pl);
        if key in index && index[key] != "" then Some(index[key]) else None
  }

  /** A non-empty code is returned upper-cased whatever the table says, even when
      the country name maps to another code. */
  lemma CodeIsAuthoritative(p: Place, index: map<string, string>, other: map<string, string>)
    requires HasCode(p)
    ensures Alpha2For(Some(p), index) == Alpha2For(Some(p), other) == Some(Upper(p.countryCode.value))
  {
  }

  /** Without a code, the place resolves to its country's table entry, and to null
      when there is none. */
  lemma CountryNameLookup(p: Place, index: map<string, string>)
    requires !HasCode(p)
    ensures CountryKey(p) in index && index[CountryKey(p)] != "" ==> Alpha2For(Some(p), index) == Some(index[CountryKey(p)])
    ensures CountryKey(p) !in index ==> Alpha2For(Some(p), index) == None
  {
  }

  /** With a table built from a dataset, every resolved code is upper case. */
  lemma ResolvedCodesAreUpper(p: Place, features: seq<Props>, conv: Coercion)
    ensures var r := Alpha2For(Some(p), IndexOf(features, conv)); r.Some? ==> IsUpperCase(r.value)
  {
    IndexValuesAreCodes(features, conv);
    if HasCode(p) {
      UpperProperties(p.countryCode.value);
    }
  }

  /** A place with the code "fr" and the country "Italy" resolves to "FR" even when
      "italy" maps to "IT". */
  lemma CodeBeatsCountryExample(p: Place)
    requires p.countryCode == Some("fr") && p.country == "Italy"
    ensures Alpha2For(Some(p), map["italy" := "IT"]) == Some("FR")
  {
    assert Upper("fr") == "FR";
  }
}
