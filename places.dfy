/**
  The place record of the travel log and the pure parts of its mutations:
  creating a place from the "add place" form, editing one field, and removing
  by id.
 */
module Places {
  import opened JsText
  import opened JsValue
  import opened Seqs

  /** One tracked place. `countryCode == None` stands for an `undefined` code.
      `status` is the raw string the form or an edit supplied. */
  datatype Place = Place(
    id: Json,
    name: string,
    country: string,
    countryCode: Option<string>,
    city: string,
    lat: Num,
    lng: Num,
    status: string,
    dateVisited: string,
    rating: Num,
    notes: string,
    tags: seq<string>)

  /** The text of each field of the "add place" form, as `FormData.get` returns it. */
  datatype PlaceForm = PlaceForm(
    name: string,
    country: string,
    countryCode: string,
    city: string,
    lat: string,
    lng: string,
    status: string,
    dateVisited: string,
    rating: string,
    notes: string,
    tags: string)

  /** The trimmed, non-empty pieces, in order. */
  function TrimmedPieces(pieces: seq<string>): (r: seq<string>)
    ensures forall t | t in r :: t != "" && IsTrimmed(t)
    ensures forall t | t in r :: exists p | p in pieces :: t == Trim(p)
    ensures forall p | p in pieces && Trim(p) != "" :: Trim(p) in r
    decreases |pieces|
  {
    if pieces == [] then []
    else
      var rest := TrimmedPieces(pieces[1..]);
      var t := Trim(pieces[0]);
      var r := if t != "" then [t] + rest else rest;
      assert forall p | p in pieces :: p == pieces[0] || p in pieces[1..];
      assert forall u | u in r :: exists p | p in pieces :: u == Trim(p) by {
        forall u | u in r ensures exists p | p in pieces :: u == Trim(p) {
          if u in rest {
            var p :| p in pieces[1..] && u == Trim(p);
            assert p in pieces;
          } else {
            assert pieces[0] in pieces;
          }
        }
      }
      r
  }

  /** `pieces.map(s => s.trim())`. */
  function TrimEach(pieces: seq<string>): (r: seq<string>)
    ensures |r| == |pieces| && forall i :: 0 <= i < |pieces| ==> r[i] == Trim(pieces[i])
  {
    seq(|pieces|, i requires 0 <= i < |pieces| => Trim(pieces[i]))
  }

  /** The kept pieces are exactly `filter(Boolean)` of the trimmed pieces: all of
      them, in order, duplicates included. */
  lemma {:induction false} TrimmedPiecesFilter(pieces: seq<string>)
    ensures TrimmedPieces(pieces) == Filter(TrimEach(pieces), (t: string) => t != "")
    decreases |pieces|
  {
    if pieces != [] {
      TrimmedPiecesFilter(pieces[1..]);
      assert TrimEach(pieces)[1..] == TrimEach(pieces[1..]);
    }
  }

  /** `text.split(",").map(s => s.trim()).filter(Boolean)`: the tags of the form's
      comma-separated tag field. */
  function ParseTags(text: string): (r: seq<string>)
    ensures forall t | t in r :: t != "" && IsTrimmed(t) && ',' !in t
    ensures forall t | t in r :: exists p | p in Split(text, ',') :: t == Trim(p)
    ensures forall p | p in Split(text, ',') && Trim(p) != "" :: Trim(p) in r
  {
    var pieces := Split(text, ',');
    var r := TrimmedPieces(pieces);
    assert forall t | t in r :: ',' !in t by {
      forall t | t in r ensures ',' !in t {
        var p :| p in pieces && t == Trim(p);
        assert ',' !in p;
        TrimChars(p);
      }
    }
    r
  }

  /** The tags are the non-blank trimmed pieces in their order, each as often as
      it occurs among the pieces. */
  lemma ParseTagsOrderAndCount(text: string)
    ensures var trimmed := TrimEach(Split(text, ','));
      && ParseTags(text) == Filter(trimmed, (t: string) => t != "")
      && Subseq(ParseTags(text), trimmed)
      && forall t | t in trimmed && t != "" :: multiset(ParseTags(text))[t] == multiset(trimmed)[t]
  {
    var trimmed := TrimEach(Split(text, ','));
    TrimmedPiecesFilter(Split(text, ','));
    FilterCounts(trimmed, (t: string) => t != "");
  }

  /** The form's tag text "tó, tó" splits into "tó" and " tó". */
  lemma SplitTwoTags()
    ensures Split("tó, tó", ',') == ["tó", " tó"]
  {
    assert Split("ó", ',') == ["ó"] by { assert "ó"[1..] == "" && ['ó'] + "" == "ó"; }
    assert Split("tó", ',') == ["tó"] by { assert "tó"[1..] == "ó" && ['t'] + "ó" == "tó"; }
    assert Split(" tó", ',') == [" tó"] by { assert " tó"[1..] == "tó" && [' '] + "tó" == " tó"; }
    assert Split(", tó", ',') == ["", " tó"] by { assert ", tó"[1..] == " tó"; }
    assert Split("ó, tó", ',') == ["ó", " tó"] by { assert "ó, tó"[1..] == ", tó"; }
    assert "tó, tó"[1..] == "ó, tó";
  }

  /** The pieces "tó" and " tó" both trim to the kept "tó". */
  lemma TwoTagPiecesKept()
    ensures TrimmedPieces(["tó", " tó"]) == ["tó", "tó"]
  {
    TrimOfTrimmed("tó");
    assert " tó" == [' '] + "tó";
    TrimLeadingSpace("tó", ' ');
    assert ["tó", " tó"][1..] == [" tó"];
    assert [" tó"][1..] == [];
    assert TrimmedPieces([" tó"]) == ["tó"];
  }

  /** A tag typed twice is kept twice. */
  lemma DuplicateTagsKept()
    ensures ParseTags("tó, tó") == ["tó", "tó"]
  {
    SplitTwoTags();
    TwoTagPiecesKept();
  }

  /** The coordinate a non-finite form value falls back to:
      `newCoords?.[k] ?? 0`, the last map click or 0. */
  function Fallback(lastClick: Option<(Num, Num)>, first: bool): Num {
    match lastClick
    case None => Finite(0.0)
    case Some(c) => if first then c.0 else c.1
  }

  /** A finite coordinate is kept; a non-finite one is replaced by the fallback. */
  function Coordinate(n: Num, lastClick: Option<(Num, Num)>, first: bool): (r: Num)
    ensures IsFinite(n) ==> r == n
    ensures !IsFinite(n) ==> r == Fallback(lastClick, first)
  {
    if IsFinite(n) then n else Fallback(lastClick, first)
  }

  /** The code typed into the form, trimmed and upper-cased; empty means undefined. */
  function FormCountryCode(text: string): (r: Option<string>)
    ensures r.None? <==> Trim(text) == ""
    ensures r.Some? ==> r.value != "" && IsTrimmed(r.value) && IsUpperCase(r.value)
    ensures r.Some? ==> r.value == Upper(Trim(text))
    ensures r.Some? ==> Upper(Trim(r.value)) == r.value
  {
    var t := Trim(text);
    var code := Upper(t);
    UpperProperties(t);
    TrimOfTrimmed(code);
    if code == "" then None else Some(code)
  }

  /** The place `addPlaceFromForm` creates from `form`, with `id` the fresh uuid and
      `lastClick` the last clicked map position; `None` when the trimmed name is
      empty, in which case nothing is created. */
  function PlaceFromForm(form: PlaceForm, id: string, lastClick: Option<(Num, Num)>, conv: Coercion)
    : (r: Option<Place>)
    ensures r.None? <==> Trim(form.name) == ""
    ensures r.Some? ==> r.value.id == JStr(id) && r.value.name != "" && IsTrimmed(r.value.name)
  {
    var name := Trim(form.name);
    if name == "" then None
    else
      Some(Place(
        id := JStr(id),
        name := name,
        country := Trim(form.country),
        countryCode := FormCountryCode(form.countryCode),
        city := Trim(form.city),
        lat := Coordinate(conv.parseNumber(form.lat), lastClick, true),
        lng := Coordinate(conv.parseNumber(form.lng), lastClick, false),
        status := form.status,
        dateVisited := form.dateVisited,
        rating := OrZero(conv.parseNumber(form.rating)),
        notes := form.notes,
        tags := ParseTags(form.tags)))
  }

  /** The fields of a created place: trimmed name, country and city, a normalised
      code, tags from the comma-separated text, coordinates with their fallback, a
      rating `Number(rating) || 0` (never NaN), the rest as typed. */
  lemma PlaceFromFormFields(form: PlaceForm, id: string, lastClick: Option<(Num, Num)>, conv: Coercion)
    requires Trim(form.name) != ""
    ensures var p := PlaceFromForm(form, id, lastClick, conv).value;
      && p.name == Trim(form.name) && p.country == Trim(form.country) && p.city == Trim(form.city)
      && IsTrimmed(p.country) && IsTrimmed(p.city)
      && (p.countryCode.None? <==> Trim(form.countryCode) == "")
      && (p.countryCode.Some? ==> p.countryCode.value == Upper(Trim(form.countryCode)))
      && p.tags == ParseTags(form.tags)
      && (IsFinite(conv.parseNumber(form.lat)) ==> p.lat == conv.parseNumber(form.lat))
      && (!IsFinite(conv.parseNumber(form.lat)) ==> p.lat == Fallback(lastClick, true))
      && (IsFinite(conv.parseNumber(form.lng)) ==> p.lng == conv.parseNumber(form.lng))
      && (!IsFinite(conv.parseNumber(form.lng)) ==> p.lng == Fallback(lastClick, false))
      && p.rating == OrZero(conv.parseNumber(form.rating)) && p.rating != NaN
      && p.id == JStr(id)
      && p.status == form.status && p.dateVisited == form.dateVisited && p.notes == form.notes
  {
  }

  /** One field edit of `updateSelected(field, value)`, for each field the
      details panel edits. */
  datatype Edit =
    | SetName(name: string)
    | SetCountry(country: string)
    | SetCountryCode(code: string)
    | SetCity(city: string)
    | SetStatus(status: string)
    | SetDateVisited(date: string)
    | SetRating(rating: Num)
    | SetTags(tags: seq<string>)
    | SetNotes(notes: string)
    | SetLat(lat: Num)
    | SetLng(lng: Num)

  /** After the edit, the edited field holds the new value. */
  predicate Holds(q: Place, e: Edit) {
    match e
    case SetName(v) => q.name == v
    case SetCountry(v) => q.country == v
    case SetCountryCode(v) => q.countryCode == Some(v)
    case SetCity(v) => q.city == v
    case SetStatus(v) => q.status == v
    case SetDateVisited(v) => q.dateVisited == v
    case SetRating(v) => q.rating == v
    case SetTags(v) => q.tags == v
    case SetNotes(v) => q.notes == v
    case SetLat(v) => q.lat == v
    case SetLng(v) => q.lng == v
  }

  /** `q` agrees with `p` on every field except the one `e` edits. */
  predicate SameExcept(p: Place, q: Place, e: Edit) {
    match e
    case SetName(_) => q == p.(name := q.name)
    case SetCountry(_) => q == p.(country := q.country)
    case SetCountryCode(_) => q == p.(countryCode := q.countryCode)
    case SetCity(_) => q == p.(city := q.city)
    case SetStatus(_) => q == p.(status := q.status)
    case SetDateVisited(_) => q == p.(dateVisited := q.dateVisited)
    case SetRating(_) => q == p.(rating := q.rating)
    case SetTags(_) => q == p.(tags := q.tags)
    case SetNotes(_) => q == p.(notes := q.notes)
    case SetLat(_) => q == p.(lat := q.lat)
    case SetLng(_) => q == p.(lng := q.lng)
  }

  /** `{ ...p, [field]: value }`. */
  function Apply(p: Place, e: Edit): (q: Place)
    ensures Holds(q, e) && SameExcept(p, q, e)
  {
    match e
    case SetName(v) => p.(name := v)
    case SetCountry(v) => p.(country := v)
    case SetCountryCode(v) => p.(countryCode := Some(v))
    case SetCity(v) => p.(city := v)
    case SetStatus(v) => p.(status := v)
    case SetDateVisited(v) => p.(dateVisited := v)
    case SetRating(v) => p.(rating := v)
    case SetTags(v) => p.(tags := v)
    case SetNotes(v) => p.(notes := v)
    case SetLat(v) => p.(lat := v)
    case SetLng(v) => p.(lng := v)
  }

  /** `places.map(p => p.id === id ? { ...p, [field]: value } : p)`. */
  function UpdateById(places: seq<Place>, id: Json, e: Edit): (r: seq<Place>)
    ensures |r| == |places|
    ensures forall i :: 0 <= i < |places| && places[i].id != id ==> r[i] == places[i]
    ensures forall i :: 0 <= i < |places| && places[i].id == id ==>
              r[i].id == id && Holds(r[i], e) && SameExcept(places[i], r[i], e)
    decreases |places|
  {
    if places == [] then []
    else
      var p := places[0];
      var rest := UpdateById(places[1..], id, e);
      assert forall i :: 1 <= i < |places| ==> places[i] == places[1..][i - 1];
      [if p.id == id then Apply(p, e) else p] + rest
  }

  /** Updating an id no place has changes nothing. */
  lemma {:induction false} UpdateMissingId(places: seq<Place>, id: Json, e: Edit)
    requires forall i :: 0 <= i < |places| ==> places[i].id != id
    ensures UpdateById(places, id, e) == places
  {
  }

  /** An edit never changes an id, so the places that carry `id` stay the same ones. */
  lemma UpdateKeepsIds(places: seq<Place>, id: Json, e: Edit)
    ensures forall i :: 0 <= i < |places| ==> UpdateById(places, id, e)[i].id == places[i].id
  {
  }

  /** `places.filter(p => p.id !== id)`. */
  function RemoveById(places: seq<Place>, id: Json): (r: seq<Place>)
    ensures Subseq(r, places)
    ensures forall p | p in r :: p.id != id && p in places
    ensures forall p | p in places && p.id != id :: p in r && multiset(r)[p] == multiset(places)[p]
  {
    FilterCounts(places, (p: Place) => p.id != id);
    Filter(places, (p: Place) => p.id != id)
  }

  /** Removing an id takes away exactly the places with that id. */
  lemma {:induction false} RemoveCount(places: seq<Place>, id: Json)
    ensures |RemoveById(places, id)| == |places| - |Filter(places, (p: Place) => p.id == id)|
    decreases |places|
  {
    if places != [] {
      RemoveCount(places[1..], id);
      assert RemoveById(places, id) ==
        (if places[0].id != id then [places[0]] else []) + RemoveById(places[1..], id);
      assert Filter(places, (p: Place) => p.id == id) ==
        (if places[0].id == id then [places[0]] else []) + Filter(places[1..], (p: Place) => p.id == id);
    }
  }

  /** Removing the id of a place just put in front of places with other ids gives
      back those places. */
  lemma RemoveAdded(p: Place, places: seq<Place>)
    requires forall q | q in places :: q.id != p.id
    ensures RemoveById([p] + places, p.id) == places
  {
    FilterKeepsAll(places, (q: Place) => q.id != p.id);
    assert ([p] + places)[1..] == places;
  }

  /** The two places a first session starts with when storage holds nothing. */
  function SeedPlaces(id1: string, id2: string): (r: seq<Place>)
    ensures |r| == 2 && r[0].status == "visited" && r[1].status == "wishlist"
    ensures r[0].countryCode == Some("SI") && r[1].countryCode == Some("CZ")
  {
    [ Place(JStr(id1), "Bledi-tó", "Szlovénia", Some("SI"), "Bled",
            Finite(46.3625), Finite(14.0936), "visited", "2025-10-23", Finite(5.0),
            "Csónak, sziget, remek kilátás.", ["tó", "kirándulás"]),
      Place(JStr(id2), "Prága óváros", "Csehország", Some("CZ"), "Prága",
            Finite(50.087), Finite(14.406), "wishlist", "", Finite(0.0),
            "Híd, óváros, sörök.", ["városnézés"]) ]
  }
}
