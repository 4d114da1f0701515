/**
  The import of a JSON file of places: each element of a parsed array is
  normalised into a place, and anything else leaves the collection as it is.
  `ToJson` is the JSON object a place is written out as, and a normalised
  place survives being written out and imported again.
 */
module Import {
  import opened JsText
  import opened JsValue
  import opened Places

  /** `p.id ?? uuidv4()`: a missing or null id is replaced by the fresh one. */
  function ImportedId(raw: Json, freshId: string): (r: Json)
    ensures r != JNull
    ensures Prop(raw, "id").None? || Prop(raw, "id") == Some(JNull) ==> r == JStr(freshId)
    ensures Prop(raw, "id").Some? && Prop(raw, "id") != Some(JNull) ==> r == Prop(raw, "id").value
  {
    match Prop(raw, "id")
    case None => JStr(freshId)
    case Some(v) => if v.JNull? then JStr(freshId) else v
  }

  /** `String(p[key] || "").trim()`. */
  function TrimmedText(raw: Json, key: string, conv: Coercion): (r: string)
    ensures IsTrimmed(r)
    ensures !Truthy(Prop(raw, key)) ==> r == ""
    ensures Prop(raw, key).Some? && Prop(raw, key).value.JStr? ==> r == Trim(Prop(raw, key).value.s)
  {
    Trim(TextOr(Prop(raw, key), conv))
  }

  /** `String(p.countryCode || "").trim().toUpperCase() || undefined`. */
  function ImportedCode(raw: Json, conv: Coercion): (r: Option<string>)
    ensures r.None? <==> Trim(TextOr(Prop(raw, "countryCode"), conv)) == ""
    ensures r.Some? ==> r.value == Upper(Trim(TextOr(Prop(raw, "countryCode"), conv)))
    ensures r.Some? ==> r.value != "" && IsTrimmed(r.value) && IsUpperCase(r.value)
  {
    FormCountryCode(TextOr(Prop(raw, "countryCode"), conv))
  }

  /** `p.status === "visited" ? "visited" : "wishlist"`. */
  function ImportedStatus(raw: Json): (r: string)
    ensures r == "visited" || r == "wishlist"
    ensures r == "visited" <==> Prop(raw, "status") == Some(JStr("visited"))
  {
    if Prop(raw, "status") == Some(JStr("visited")) then "visited" else "wishlist"
  }

  /** `Number(p.rating || 0)`: a falsy rating is 0, a truthy one is converted
      (and may be NaN). */
  function ImportedRating(raw: Json, conv: Coercion): (r: Num)
    ensures !Truthy(Prop(raw, "rating")) ==> r == Finite(0.0)
    ensures Prop(raw, "rating").Some? && Prop(raw, "rating").value.JNum? && Truthy(Prop(raw, "rating")) ==>
              r == Prop(raw, "rating").value.n
  {
    if Truthy(Prop(raw, "rating")) then ToNumber(Prop(raw, "rating"), conv) else Finite(0.0)
  }

  /** `Array.isArray(p.tags) ? p.tags.map(String) : []`. */
  function ImportedTags(raw: Json, conv: Coercion): (r: seq<string>)
    ensures !(Prop(raw, "tags").Some? && Prop(raw, "tags").value.JArr?) ==> r == []
    ensures Prop(raw, "tags").Some? && Prop(raw, "tags").value.JArr? ==>
              |r| == |Prop(raw, "tags").value.elems|
              && forall i :: 0 <= i < |r| ==> r[i] == ToStr(Prop(raw, "tags").value.elems[i], conv)
  {
    match Prop(raw, "tags")
    case Some(JArr(xs)) => seq(|xs|, i requires 0 <= i < |xs| => ToStr(xs[i], conv))
    case _ => []
  }

  /** `Number(p[key]) || 0`: a coordinate that is never NaN, since NaN is falsy. */
  function ImportedCoord(raw: Json, key: string, conv: Coercion): (r: Num)
    ensures r != NaN
    ensures NumTruthy(ToNumber(Prop(raw, key), conv)) ==> r == ToNumber(Prop(raw, key), conv)
    ensures !NumTruthy(ToNumber(Prop(raw, key), conv)) ==> r == Finite(0.0)
  {
    OrZero(ToNumber(Prop(raw, key), conv))
  }

  /** The normalised place of one array element (which is not null). */
  function NormalisePlace(raw: Json, freshId: string, conv: Coercion): (r: Place)
    ensures r.id != JNull
    ensures IsTrimmed(r.name) && IsTrimmed(r.country) && IsTrimmed(r.city)
    ensures r.status == "visited" || r.status == "wishlist"
    ensures r.countryCode.Some? ==> r.countryCode.value != "" && IsUpperCase(r.countryCode.value)
    ensures r.lat != NaN && r.lng != NaN
  {
    var id := ImportedId(raw, freshId);
    var name := TrimmedText(raw, "name", conv);
    var country := TrimmedText(raw, "country", conv);
    var code := ImportedCode(raw, conv);
    var city := TrimmedText(raw, "city", conv);
    var lat := ImportedCoord(raw, "lat", conv);
    var lng := ImportedCoord(raw, "lng", conv);
    var status := ImportedStatus(raw);
    Place(id, name, country, code, city, lat, lng, status,
          TextOr(Prop(raw, "dateVisited"), conv), ImportedRating(raw, conv),
          TextOr(Prop(raw, "notes"), conv), ImportedTags(raw, conv))
  }

  /** The properties the normalisation passes to `String(...)` or `Number(...)`. */
  const ConvertedKeys: seq<string> :=
    ["name", "country", "countryCode", "city", "lat", "lng", "dateVisited", "rating", "notes"]

  /** Normalising `raw` raises no TypeError: every converted property, and every
      element of an array of tags, converts without throwing. */
  predicate Convertible(raw: Json) {
    && (forall k | k in ConvertedKeys :: CoercibleOpt(Prop(raw, k)))
    && (Prop(raw, "tags").Some? && Prop(raw, "tags").value.JArr? ==> Coercible(Prop(raw, "tags").value))
  }

  /** The import succeeds on an array none of whose elements is null (reading
      `p.id` of a null element throws) and each of whose elements converts without
      a TypeError; every error is caught and leaves the collection as it is. */
  predicate Importable(parsed: Option<Json>) {
    && parsed.Some? && parsed.value.JArr?
    && (forall i :: 0 <= i < |parsed.value.elems| ==> parsed.value.elems[i] != JNull)
    && (forall i :: 0 <= i < |parsed.value.elems| ==> Convertible(parsed.value.elems[i]))
  }

  /** The collection an import of `parsed` (`None` when `JSON.parse` failed) sets,
      with `freshId(i)` the uuid drawn for element `i`; `None` leaves the
      collection unchanged. */
  function ImportPlaces(parsed: Option<Json>, freshId: nat -> string, conv: Coercion): (r: Option<seq<Place>>)
    ensures r.Some? <==> Importable(parsed)
    ensures r.Some? ==> |r.value| == |parsed.value.elems|
  {
    if Importable(parsed) then
      var xs := parsed.value.elems;
      Some(seq(|xs|, i requires 0 <= i < |xs| => NormalisePlace(xs[i], freshId(i), conv)))
    else None
  }

  /** Each element of an imported array becomes exactly one place, in order. */
  lemma ImportOnePerElement(parsed: Option<Json>, freshId: nat -> string, conv: Coercion, i: nat)
    requires Importable(parsed) && i < |parsed.value.elems|
    ensures ImportPlaces(parsed, freshId, conv).value[i] == NormalisePlace(parsed.value.elems[i], freshId(i), conv)
  {
  }

  /** Unparseable input, a value that is not an array, and an array with a null
      element all leave the collection unchanged. */
  lemma ImportRejects(parsed: Option<Json>, freshId: nat -> string, conv: Coercion)
    requires parsed.None? || !parsed.value.JArr? || JNull in parsed.value.elems
    ensures ImportPlaces(parsed, freshId, conv).None?
  {
    if parsed.Some? && parsed.value.JArr? {
      var i :| 0 <= i < |parsed.value.elems| && parsed.value.elems[i] == JNull;
    }
  }

  /** An element whose name is an object with its own `toString` key makes
      `String(p.name)` throw, so the whole file is rejected. */
  lemma ImportRejectsUnconvertible(freshId: nat -> string, conv: Coercion)
    ensures ImportPlaces(Some(JArr([JObj(map["name" := JObj(map["toString" := JNum(Finite(0.0))])])])), freshId, conv).None?
  {
    var raw := JObj(map["name" := JObj(map["toString" := JNum(Finite(0.0))])]);
    var parsed := Some(JArr([raw]));
    assert ConvertedKeys[0] == "name";
    assert !CoercibleOpt(Prop(raw, "name"));
    assert !Convertible(parsed.value.elems[0]);
  }

  /** The normalised identity and texts: status "visited" exactly for the string
      "visited", a fresh id for a missing or null one and the given id otherwise,
      trimmed texts, and a code that is the trimmed upper-cased text or undefined. */
  lemma NormaliseFields(raw: Json, freshId: string, conv: Coercion)
    ensures var p := NormalisePlace(raw, freshId, conv);
      && (p.status == "visited" <==> Prop(raw, "status") == Some(JStr("visited")))
      && (Prop(raw, "id").None? || Prop(raw, "id") == Some(JNull) ==> p.id == JStr(freshId))
      && (Prop(raw, "id").Some? && Prop(raw, "id") != Some(JNull) ==> p.id == Prop(raw, "id").value)
      && p.name == Trim(TextOr(Prop(raw, "name"), conv))
      && p.country == Trim(TextOr(Prop(raw, "country"), conv))
      && p.city == Trim(TextOr(Prop(raw, "city"), conv))
      && (p.countryCode.None? <==> Trim(TextOr(Prop(raw, "countryCode"), conv)) == "")
      && (p.countryCode.Some? ==> p.countryCode.value == Upper(Trim(TextOr(Prop(raw, "countryCode"), conv))))
  {
  }

  /** The normalised numbers, free texts and tags: `Number(x) || 0` for the
      coordinates, `Number(rating || 0)` for the rating, `String(x || "")` for the
      date and the notes, and `map(String)` of an array of tags, `[]` otherwise. */
  lemma NormaliseOtherFields(raw: Json, freshId: string, conv: Coercion)
    ensures var p := NormalisePlace(raw, freshId, conv);
      && p.lat == OrZero(ToNumber(Prop(raw, "lat"), conv))
      && p.lng == OrZero(ToNumber(Prop(raw, "lng"), conv))
      && (!Truthy(Prop(raw, "rating")) ==> p.rating == Finite(0.0))
      && (Truthy(Prop(raw, "rating")) ==> p.rating == ToNumber(Prop(raw, "rating"), conv))
      && p.dateVisited == TextOr(Prop(raw, "dateVisited"), conv)
      && p.notes == TextOr(Prop(raw, "notes"), conv)
      && (!(Prop(raw, "tags").Some? && Prop(raw, "tags").value.JArr?) ==> p.tags == [])
      && (Prop(raw, "tags").Some? && Prop(raw, "tags").value.JArr? ==>
            |p.tags| == |Prop(raw, "tags").value.elems|
            && forall i :: 0 <= i < |p.tags| ==> p.tags[i] == ToStr(Prop(raw, "tags").value.elems[i], conv))
  {
  }

  /** Every text read from an element without that property is empty. */
  lemma MissingText(raw: Json, key: string, conv: Coercion)
    requires Prop(raw, key).None?
    ensures TextOr(Prop(raw, key), conv) == "" && TrimmedText(raw, key, conv) == ""
  {
  }

  /** Unlike the form, the import accepts a place without a name: an empty
      object becomes a nameless wishlist place at (0, 0) with the fresh id. */
  lemma ImportKeepsNameless(freshId: string, conv: Coercion)
    ensures NormalisePlace(JObj(map[]), freshId, conv)
         == Place(JStr(freshId), "", "", None, "", Finite(0.0), Finite(0.0), "wishlist", "", Finite(0.0), "", [])
  {
    var raw := JObj(map[]);
    MissingText(raw, "name", conv);
    MissingText(raw, "country", conv);
    MissingText(raw, "countryCode", conv);
    MissingText(raw, "city", conv);
    MissingText(raw, "dateVisited", conv);
    MissingText(raw, "notes", conv);
    assert ImportedCode(raw, conv) == None;
  }

  /** A number as `JSON.stringify` writes it: non-finite numbers become `null`. */
  function NumJson(n: Num): Json {
    if n.Finite? then JNum(n) else JNull
  }

  /** A list of tags as a JSON array of strings. */
  function TagsJson(tags: seq<string>): Json {
    JArr(seq(|tags|, i requires 0 <= i < |tags| => JStr(tags[i])))
  }

  /** The JSON object a place is stored and exported as; an undefined code is omitted. */
  function ToJson(p: Place): (r: Json)
    ensures r.JObj?
  {
    var base := map[
      "id" := p.id, "name" := JStr(p.name), "country" := JStr(p.country),
      "city" := JStr(p.city), "lat" := NumJson(p.lat), "lng" := NumJson(p.lng),
      "status" := JStr(p.status), "dateVisited" := JStr(p.dateVisited),
      "rating" := NumJson(p.rating), "notes" := JStr(p.notes), "tags" := TagsJson(p.tags)];
    match p.countryCode
    case None => JObj(base)
    case Some(c) => JObj(base["countryCode" := JStr(c)])
  }

  /** `raw` holds every field of `p` under its own name, as `ToJson` writes it. */
  predicate Describes(raw: Json, p: Place) {
    && Prop(raw, "id") == Some(p.id)
    && Prop(raw, "name") == Some(JStr(p.name))
    && Prop(raw, "country") == Some(JStr(p.country))
    && Prop(raw, "city") == Some(JStr(p.city))
    && Prop(raw, "lat") == Some(NumJson(p.lat))
    && Prop(raw, "lng") == Some(NumJson(p.lng))
    && Prop(raw, "status") == Some(JStr(p.status))
    && Prop(raw, "dateVisited") == Some(JStr(p.dateVisited))
    && Prop(raw, "rating") == Some(NumJson(p.rating))
    && Prop(raw, "notes") == Some(JStr(p.notes))
    && Prop(raw, "tags") == Some(TagsJson(p.tags))
    && (p.countryCode.None? ==> Prop(raw, "countryCode") == None)
    && (p.countryCode.Some? ==> Prop(raw, "countryCode") == Some(JStr(p.countryCode.value)))
  }

  /** A place as the import produces it from well-formed data: a non-null id that
      JSON.stringify writes back unchanged, trimmed texts, a normalised code,
      finite numbers, a known status. */
  predicate Normal(p: Place) {
    && p.id != JNull && FiniteJson(p.id)
    && IsTrimmed(p.name) && IsTrimmed(p.country) && IsTrimmed(p.city)
    && (p.countryCode.Some? ==> p.countryCode.value != "" && IsTrimmed(p.countryCode.value)
                                && Upper(p.countryCode.value) == p.countryCode.value)
    && p.lat.Finite? && p.lng.Finite? && p.rating.Finite?
    && (p.status == "visited" || p.status == "wishlist")
  }

  /** The texts and the id of a place can be read back from its object. */
  lemma ToJsonTexts(p: Place)
    ensures Prop(ToJson(p), "id") == Some(p.id)
    ensures Prop(ToJson(p), "name") == Some(JStr(p.name))
    ensures Prop(ToJson(p), "country") == Some(JStr(p.country))
    ensures Prop(ToJson(p), "city") == Some(JStr(p.city))
    ensures Prop(ToJson(p), "status") == Some(JStr(p.status))
    ensures Prop(ToJson(p), "dateVisited") == Some(JStr(p.dateVisited))
    ensures Prop(ToJson(p), "notes") == Some(JStr(p.notes))
  {
  }

  /** The numbers, the tags and the code of a place can be read back from its object. */
  lemma ToJsonOthers(p: Place)
    ensures Prop(ToJson(p), "lat") == Some(NumJson(p.lat))
    ensures Prop(ToJson(p), "lng") == Some(NumJson(p.lng))
    ensures Prop(ToJson(p), "rating") == Some(NumJson(p.rating))
    ensures Prop(ToJson(p), "tags") == Some(TagsJson(p.tags))
    ensures p.countryCode.None? ==> Prop(ToJson(p), "countryCode") == None
    ensures p.countryCode.Some? ==> Prop(ToJson(p), "countryCode") == Some(JStr(p.countryCode.value))
  {
  }

  /** The object a place is written as describes it. */
  lemma ToJsonDescribes(p: Place)
    ensures Describes(ToJson(p), p)
  {
    ToJsonTexts(p);
    ToJsonOthers(p);
  }

  /** A finite number survives `x || 0` after being written out. */
  lemma NumRoundTrip(raw: Json, key: string, n: Num, conv: Coercion)
    requires Prop(raw, key) == Some(NumJson(n)) && n.Finite?
    ensures ImportedCoord(raw, key, conv) == n
  {
  }

  /** A text survives `String(x || "")` after being written out. */
  lemma RawTextRoundTrip(raw: Json, key: string, s: string, conv: Coercion)
    requires Prop(raw, key) == Some(JStr(s))
    ensures TextOr(Prop(raw, key), conv) == s
  {
  }

  /** A trimmed text survives `String(x || "").trim()` after being written out. */
  lemma TextRoundTrip(raw: Json, key: string, s: string, conv: Coercion)
    requires Prop(raw, key) == Some(JStr(s)) && IsTrimmed(s)
    ensures TrimmedText(raw, key, conv) == s
  {
    TrimOfTrimmed(s);
  }

  /** An absent code stays absent. */
  lemma NoCodeRoundTrip(raw: Json, conv: Coercion)
    requires Prop(raw, "countryCode") == None
    ensures ImportedCode(raw, conv) == None
  {
    TrimOfTrimmed("");
  }

  /** A normalised code survives being written out. */
  lemma CodeRoundTrip(raw: Json, code: string, conv: Coercion)
    requires Prop(raw, "countryCode") == Some(JStr(code))
    requires code != "" && IsTrimmed(code) && Upper(code) == code
    ensures ImportedCode(raw, conv) == Some(code)
  {
    TrimOfTrimmed(code);
  }

  /** A known status survives being written out. */
  lemma StatusRoundTrip(raw: Json, status: string)
    requires Prop(raw, "status") == Some(JStr(status)) && (status == "visited" || status == "wishlist")
    ensures ImportedStatus(raw) == status
  {
    if status == "wishlist" {
      assert status[0] != "visited"[0];
    }
  }

  /** A finite rating survives `Number(x || 0)` after being written out. */
  lemma RatingRoundTrip(raw: Json, n: Num, conv: Coercion)
    requires Prop(raw, "rating") == Some(NumJson(n)) && n.Finite?
    ensures ImportedRating(raw, conv) == n
  {
  }

  /** The tags survive being written out. */
  lemma TagsRoundTrip(raw: Json, tags: seq<string>, conv: Coercion)
    requires Prop(raw, "tags") == Some(TagsJson(tags))
    ensures ImportedTags(raw, conv) == tags
  {
  }

  /** The object a place is written as converts without a TypeError. */
  lemma ToJsonConvertible(p: Place)
    ensures Convertible(ToJson(p))
  {
    ToJsonTexts(p);
    ToJsonOthers(p);
    assert forall k | k in ConvertedKeys :: k in {"name", "country", "countryCode", "city", "lat", "lng", "dateVisited", "rating", "notes"};
    assert Coercible(TagsJson(p.tags));
  }

  /** Any element that describes a normal place normalises to that place. */
  lemma NormaliseDescribed(raw: Json, p: Place, freshId: string, conv: Coercion)
    requires Describes(raw, p) && Normal(p)
    ensures NormalisePlace(raw, freshId, conv) == p
  {
    TextRoundTrip(raw, "name", p.name, conv);
    TextRoundTrip(raw, "country", p.country, conv);
    TextRoundTrip(raw, "city", p.city, conv);
    if p.countryCode.Some? {
      CodeRoundTrip(raw, p.countryCode.value, conv);
    } else {
      NoCodeRoundTrip(raw, conv);
    }
    NumRoundTrip(raw, "lat", p.lat, conv);
    NumRoundTrip(raw, "lng", p.lng, conv);
    StatusRoundTrip(raw, p.status);
    RawTextRoundTrip(raw, "dateVisited", p.dateVisited, conv);
    RawTextRoundTrip(raw, "notes", p.notes, conv);
    RatingRoundTrip(raw, p.rating, conv);
    TagsRoundTrip(raw, p.tags, conv);
  }

  /** Writing a normal place out and importing it again gives the same place. */
  lemma ImportOfExport(p: Place, freshId: string, conv: Coercion)
    requires Normal(p)
    ensures NormalisePlace(ToJson(p), freshId, conv) == p
  {
    ToJsonDescribes(p);
    NormaliseDescribed(ToJson(p), p, freshId, conv);
  }

  /** The JSON array a collection is exported as, one object per place. */
  function ExportArray(ps: seq<Place>): (r: Json)
    ensures r.JArr? && |r.elems| == |ps|
    ensures forall i :: 0 <= i < |ps| ==> r.elems[i] == ToJson(ps[i])
  {
    JArr(seq(|ps|, i requires 0 <= i < |ps| => ToJson(ps[i])))
  }

  /** Exporting a collection of normal places and importing the file gives back
      the same collection, in the same order. */
  lemma ImportOfExportedCollection(ps: seq<Place>, freshId: nat -> string, conv: Coercion)
    requires forall i :: 0 <= i < |ps| ==> Normal(ps[i])
    ensures ImportPlaces(Some(ExportArray(ps)), freshId, conv) == Some(ps)
  {
    var arr := ExportArray(ps);
    forall i | 0 <= i < |ps|
      ensures Convertible(arr.elems[i])
    {
      ToJsonConvertible(ps[i]);
    }
    assert Importable(Some(arr));
    var r := ImportPlaces(Some(arr), freshId, conv).value;
    forall i | 0 <= i < |ps|
      ensures r[i] == ps[i]
    {
      ImportOnePerElement(Some(arr), freshId, conv, i);
      ImportOfExport(ps[i], freshId(i), conv);
    }
    assert r == ps;
  }

  // Places the details panel can produce that are not `Normal` and do not
  // survive being written out and imported again.

  /** A latitude the panel set to NaN is written as null and read back as 0. */
  lemma ExportLosesNaN(p: Place, freshId: string, conv: Coercion)
    requires p.lat == NaN
    ensures NormalisePlace(ToJson(p), freshId, conv).lat == Finite(0.0)
  {
    ToJsonOthers(p);
  }

  /** A cleared code field, stored as "", is read back as no code. */
  lemma ExportDropsEmptyCode(p: Place, freshId: string, conv: Coercion)
    requires p.countryCode == Some("")
    ensures NormalisePlace(ToJson(p), freshId, conv).countryCode == None
  {
    ToJsonOthers(p);
  }

  /** A name typed with a leading space is read back trimmed. */
  lemma ExportTrimsName(p: Place, freshId: string, conv: Coercion)
    requires p.name == " a"
    ensures NormalisePlace(ToJson(p), freshId, conv).name == "a"
  {
    ToJsonTexts(p);
    assert " a" == [' '] + "a";
    TrimLeadingSpace("a", ' ');
  }

  /** Normalisation is idempotent on its own output (when that output has finite
      numbers): importing what an import produced and wrote out changes nothing. */
  lemma ReimportIsIdentity(raw: Json, freshId: string, other: string, conv: Coercion)
    requires var p := NormalisePlace(raw, freshId, conv);
      p.rating.Finite? && p.lat.Finite? && p.lng.Finite? && FiniteJson(p.id)
    ensures var p := NormalisePlace(raw, freshId, conv); NormalisePlace(ToJson(p), other, conv) == p
  {
    var p := NormalisePlace(raw, freshId, conv);
    var t := Trim(TextOr(Prop(raw, "countryCode"), conv));
    if p.countryCode.Some? {
      UpperProperties(t);
      TrimOfTrimmed(Upper(t));
    }
    assert Normal(p);
    ImportOfExport(p, other, conv);
  }
}
