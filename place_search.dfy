/**
  The place search: turning one geocoder (Nominatim) result into the fields a
  new place is filled in from.
 */
module PlaceSearch {
  import opened JsText
  import opened JsValue

  /** The place fields a search result supplies. `name == None` stands for an
      `undefined` name; `city` and `country` are whatever value the result held. */
  datatype Suggestion = Suggestion(
    name: Option<Json>,
    country: Json,
    countryCode: string,
    city: Json,
    lat: Num,
    lng: Num)

  /** The address properties tried for the city, in this order. */
  const CityKeys: seq<string> := ["city", "town", "village", "hamlet", "state"]

  /** `item.address || {}`: the properties of the address, none when it is falsy. */
  function Address(item: Json): (r: map<string, Json>)
    ensures !Truthy(Prop(item, "address")) ==> r == map[]
    ensures forall k :: Truthy(Prop(item, "address")) ==> Prop(JObj(r), k) == Prop(Prop(item, "address").value, k)
  {
    var a := Prop(item, "address");
    if Truthy(a) && a.value.JObj? then a.value.props else map[]
  }

  /** `a || b || ... || ""` over the address: the first truthy value, or "". */
  function FirstOrEmpty(addr: map<string, Json>, keys: seq<string>): (r: Json)
    ensures FirstTruthy(addr, keys).Some? ==> r == FirstTruthy(addr, keys).value
    ensures FirstTruthy(addr, keys).None? ==> r == JStr("")
  {
    match FirstTruthy(addr, keys)
    case Some(v) => v
    case None => JStr("")
  }

  /** The text the name is cut from, `addr.name || item.display_name || ""`;
      `None` when that value is not a string, where `split` throws. */
  function NameSource(item: Json): (r: Option<string>)
    ensures var n := Prop(JObj(Address(item)), "name");
      Truthy(n) ==> (r.Some? <==> n.value.JStr?) && (n.value.JStr? ==> r == Some(n.value.s))
    ensures var n := Prop(JObj(Address(item)), "name"); var d := Prop(item, "display_name");
      !Truthy(n) && Truthy(d) ==> (r.Some? <==> d.value.JStr?) && (d.value.JStr? ==> r == Some(d.value.s))
    ensures !Truthy(Prop(JObj(Address(item)), "name")) && !Truthy(Prop(item, "display_name")) ==> r == Some("")
  {
    var fromAddress := Prop(JObj(Address(item)), "name");
    var v := if Truthy(fromAddress) then fromAddress.value
             else if Truthy(Prop(item, "display_name")) then Prop(item, "display_name").value
             else JStr("");
    if v.JStr? then Some(v.s) else None
  }

  /** `(addr.country_code || "").toUpperCase()`; `None` when the code is a truthy
      value that is not a string, where `toUpperCase` throws. */
  function CodeText(addr: map<string, Json>): (r: Option<string>)
    ensures r.Some? ==> IsUpperCase(r.value)
    ensures var c := Prop(JObj(addr), "country_code"); r.None? <==> Truthy(c) && !c.value.JStr?
    ensures var c := Prop(JObj(addr), "country_code"); Truthy(c) && c.value.JStr? ==> r == Some(Upper(c.value.s))
    ensures !Truthy(Prop(JObj(addr), "country_code")) ==> r == Some("")
  {
    match FirstTruthy(addr, ["country_code"])
    case None => Some("")
    case Some(v) =>
      if v.JStr? then
        UpperProperties(v.s);
        Some(Upper(v.s))
      else None
  }

  /** `toPlace`: the suggestion for one search result, or `None` when the
      result makes the mapping throw: a null result has no `address` to read,
      and `Number(item.lat)`, `Number(item.lon)` throw on a value that is not
      `Coercible`. */
  function ToPlace(item: Json, conv: Coercion): (r: Option<Suggestion>)
    ensures r.Some? <==> && !item.JNull? && NameSource(item).Some? && CodeText(Address(item)).Some?
                         && CoercibleOpt(Prop(item, "lat")) && CoercibleOpt(Prop(item, "lon"))
    ensures r.Some? ==> IsUpperCase(r.value.countryCode)
    ensures r.Some? ==> r.value.countryCode == CodeText(Address(item)).value
    ensures var c := Prop(JObj(Address(item)), "country");
      r.Some? ==> (Truthy(c) ==> r.value.country == c.value) && (!Truthy(c) ==> r.value.country == JStr(""))
    ensures r.Some? ==> r.value.lat == ToNumber(Prop(item, "lat"), conv)
    ensures r.Some? ==> r.value.lng == ToNumber(Prop(item, "lon"), conv)
  {
    var addr := Address(item);
    var source := NameSource(item);
    var code := CodeText(addr);
    if item.JNull? || source.None? || code.None? then None
    else if !CoercibleOpt(Prop(item, "lat")) || !CoercibleOpt(Prop(item, "lon")) then None
    else
      var head := Split(source.value, ',')[0];
      Some(Suggestion(
        name := if head != "" then Some(JStr(head)) else Prop(item, "display_name"),
        country := FirstOrEmpty(addr, ["country"]),
        countryCode := code.value,
        city := FirstOrEmpty(addr, CityKeys),
        lat := ToNumber(Prop(item, "lat"), conv),
        lng := ToNumber(Prop(item, "lon"), conv)))
  }

  /** A non-null result whose name, display name and code are strings or missing,
      and whose coordinates convert, never makes the mapping throw. */
  lemma ToPlaceTotalOnText(item: Json, conv: Coercion)
    requires item != JNull
    requires CoercibleOpt(Prop(item, "lat")) && CoercibleOpt(Prop(item, "lon"))
    requires Prop(JObj(Address(item)), "name").None? || Prop(JObj(Address(item)), "name").value.JStr?
    requires Prop(item, "display_name").None? || Prop(item, "display_name").value.JStr?
    requires Prop(JObj(Address(item)), "country_code").None? || Prop(JObj(Address(item)), "country_code").value.JStr?
    ensures ToPlace(item, conv).Some?
  {
  }

  /** The city is the first truthy one of `city`, `town`, `village`, `hamlet`
      and `state`. */
  lemma CityFirstTruthy(item: Json, conv: Coercion, k: nat)
    requires ToPlace(item, conv).Some?
    requires k < |CityKeys| && Truthy(Prop(JObj(Address(item)), CityKeys[k]))
    requires forall j :: 0 <= j < k ==> !Truthy(Prop(JObj(Address(item)), CityKeys[j]))
    ensures ToPlace(item, conv).value.city == Address(item)[CityKeys[k]]
  {
    var addr := Address(item);
    var r := FirstTruthy(addr, CityKeys);
    var i :| 0 <= i < |CityKeys| && Prop(JObj(addr), CityKeys[i]) == r && Truthy(r)
             && forall j :: 0 <= j < i ==> !Truthy(Prop(JObj(addr), CityKeys[j]));
    assert i == k;
  }

  /** Without any of the five city properties the city is "". */
  lemma CityMissing(item: Json, conv: Coercion)
    requires ToPlace(item, conv).Some?
    requires forall j :: 0 <= j < |CityKeys| ==> !Truthy(Prop(JObj(Address(item)), CityKeys[j]))
    ensures ToPlace(item, conv).value.city == JStr("")
  {
  }

  /** The name is the text before the first comma of its source, and when that
      is empty it is the display name as it stands. */
  lemma NameBeforeComma(item: Json, conv: Coercion)
    requires ToPlace(item, conv).Some?
    ensures var s := NameSource(item).value;
      var n := ToPlace(item, conv).value.name;
      (Split(s, ',')[0] != "" ==> n.Some? && n.value.JStr? && StartsWith(s, n.value.s) && ',' !in n.value.s
                                  && (|n.value.s| < |s| ==> s[|n.value.s|] == ','))
      && (Split(s, ',')[0] == "" ==> n == Prop(item, "display_name"))
  {
    SplitHead(NameSource(item).value, ',');
  }

  /** A non-null result without an address, whose display name is text or
      missing and whose coordinates convert, maps without throwing to an empty
      country, code and city. */
  lemma NoAddressDefaults(item: Json, conv: Coercion)
    requires item != JNull
    requires CoercibleOpt(Prop(item, "lat")) && CoercibleOpt(Prop(item, "lon"))
    requires !Truthy(Prop(item, "address"))
    requires Prop(item, "display_name").None? || Prop(item, "display_name").value.JStr?
    ensures ToPlace(item, conv).Some?
    ensures var r := ToPlace(item, conv).value;
      r.country == JStr("") && r.countryCode == "" && r.city == JStr("")
  {
    assert Address(item) == map[];
    ToPlaceTotalOnText(item, conv);
  }

  /** The code is `country_code` upper-cased; a truthy `country_code` that is
      not text makes the mapping throw. */
  lemma CodeFromCountryCode(item: Json, conv: Coercion)
    requires item != JNull && NameSource(item).Some?
    requires CoercibleOpt(Prop(item, "lat")) && CoercibleOpt(Prop(item, "lon"))
    ensures var c := Prop(JObj(Address(item)), "country_code");
      && (Truthy(c) && c.value.JStr? ==> ToPlace(item, conv).Some? && ToPlace(item, conv).value.countryCode == Upper(c.value.s))
      && (Truthy(c) && !c.value.JStr? ==> ToPlace(item, conv).None?)
      && (!Truthy(c) ==> ToPlace(item, conv).Some? && ToPlace(item, conv).value.countryCode == "")
  {
  }

  /** A text `addr.name` is cut at its first comma, and a truthy `addr.name` that
      is not text makes the mapping throw. */
  lemma NameFromAddress(item: Json, conv: Coercion)
    requires item != JNull && CodeText(Address(item)).Some?
    requires CoercibleOpt(Prop(item, "lat")) && CoercibleOpt(Prop(item, "lon"))
    requires Truthy(Prop(JObj(Address(item)), "name"))
    ensures var n := Prop(JObj(Address(item)), "name").value;
      && (!n.JStr? ==> ToPlace(item, conv).None?)
      && (n.JStr? && Split(n.s, ',')[0] != "" ==>
            ToPlace(item, conv).Some? && ToPlace(item, conv).value.name == Some(JStr(Split(n.s, ',')[0])))
  {
  }

  /** Without a truthy `addr.name` the name is cut from `display_name`. */
  lemma NameFromDisplayName(item: Json, conv: Coercion)
    requires item != JNull && CodeText(Address(item)).Some?
    requires CoercibleOpt(Prop(item, "lat")) && CoercibleOpt(Prop(item, "lon"))
    requires !Truthy(Prop(JObj(Address(item)), "name")) && Truthy(Prop(item, "display_name"))
    ensures var d := Prop(item, "display_name").value;
      && (!d.JStr? ==> ToPlace(item, conv).None?)
      && (d.JStr? && Split(d.s, ',')[0] != "" ==>
            ToPlace(item, conv).Some? && ToPlace(item, conv).value.name == Some(JStr(Split(d.s, ',')[0])))
  {
  }

  /** A latitude that is an object with its own `toString` key makes
      `Number(item.lat)` throw, whatever the address holds. */
  lemma UnconvertibleLatThrows(conv: Coercion)
    ensures ToPlace(JObj(map["lat" := JObj(map["toString" := JNum(Finite(0.0))]),
                             "address" := JObj(map["name" := JStr("x")])]), conv).None?
  {
  }

  /** A null result makes the mapping throw. */
  lemma NullResultThrows(conv: Coercion)
    ensures ToPlace(JNull, conv).None?
  {
  }
}
