/**
  The views derived from the place collection: the text/status filter of the
  list, the header statistics, the set of visited country codes and the
  visited/not-visited decision for each boundary feature of the map.
 */
module Views {
  import opened JsText
  import opened JsValue
  import opened Seqs
  import opened Places
  import opened CountryIndex

  /** The text a query is matched against: name, country, city and tags, in that order. */
  function SearchText(p: Place): string {
    p.name + " " + p.country + " " + p.city + " " + Join(p.tags, " ")
  }

  /** A place passes the filter: the lower-cased search text includes the
      lower-cased query, and the status filter is "all" or the place's status. */
  predicate Matches(p: Place, query: string, status: string) {
    Contains(Lower(SearchText(p)), Lower(query)) && (status == "all" || p.status == status)
  }

  /** `filtered`: the places that pass the filter, in their original order. */
  function FilterPlaces(places: seq<Place>, query: string, status: string): (r: seq<Place>)
    ensures Subseq(r, places)
    ensures forall p | p in r :: p in places && Matches(p, query, status)
    ensures forall p | p in places && Matches(p, query, status) :: p in r && multiset(r)[p] == multiset(places)[p]
  {
    FilterCounts(places, (p: Place) => Matches(p, query, status));
    Filter(places, (p: Place) => Matches(p, query, status))
  }

  /** An empty query under "all" shows every place. */
  lemma FilterEmptyQueryAll(places: seq<Place>)
    ensures FilterPlaces(places, "", "all") == places
  {
    assert Lower("") == "";
    forall p | p in places ensures Matches(p, "", "all") {
      ContainsEmpty(Lower(SearchText(p)));
    }
    FilterKeepsAll(places, (p: Place) => Matches(p, "", "all"));
  }

  /** An empty query under a status shows exactly the places with that status. */
  lemma FilterEmptyQueryStatus(places: seq<Place>, status: string, p: Place)
    requires status != "all" && p in places
    ensures p in FilterPlaces(places, "", status) <==> p.status == status
  {
    assert Lower("") == "";
    ContainsEmpty(Lower(SearchText(p)));
  }

  /** A query whose first character does not occur in the text is not included in it. */
  lemma {:induction false} NotContainsFirstChar(s: string, q: string)
    requires q != [] && q[0] !in s
    ensures !Contains(s, q)
    decreases |s|
  {
    if |s| > 0 {
      assert s[1..] == s[1..] && forall c :: c in s[1..] ==> c in s;
      NotContainsFirstChar(s[1..], q);
    }
  }

  /** The lower-cased search text of Paris includes "fra". */
  lemma ParisMatchesFra(paris: Place)
    requires paris.name == "Paris" && paris.country == "France" && paris.city == "" && paris.tags == []
    ensures Matches(paris, "fra", "all")
  {
    var t := Lower(SearchText(paris));
    assert SearchText(paris) == "Paris France  ";
    assert Lower("fra") == "fra";
    assert t[6..9] == "fra";
    ContainsAt(t, "fra", 6);
  }

  /** The lower-cased search text of Rome has no "f" at all. */
  lemma RomeMissesFra(rome: Place)
    requires rome.name == "Rome" && rome.country == "Italy" && rome.city == "" && rome.tags == []
    ensures !Matches(rome, "fra", "all")
  {
    var t := Lower(SearchText(rome));
    assert SearchText(rome) == "Rome Italy  ";
    assert Lower("fra") == "fra";
    assert 'f' !in t by {
      assert forall i :: 0 <= i < |t| ==> t[i] != 'f';
    }
    NotContainsFirstChar(t, "fra");
  }

  /** "fra" finds Paris in France and not Rome in Italy. */
  lemma FilterExample(paris: Place, rome: Place)
    requires paris.name == "Paris" && paris.country == "France" && paris.city == "" && paris.tags == []
    requires rome.name == "Rome" && rome.country == "Italy" && rome.city == "" && rome.tags == []
    ensures FilterPlaces([paris, rome], "fra", "all") == [paris]
  {
    ParisMatchesFra(paris);
    RomeMissesFra(rome);
    FilterFirstOfTwo(paris, rome, (p: Place) => Matches(p, "fra", "all"));
  }

  /** The counts in the header. */
  datatype Stats = Stats(visitedCount: nat, wishlistCount: nat, countriesCount: nat)

  /** `places.filter(p => p.status === status)`. */
  function WithStatus(places: seq<Place>, status: string): seq<Place> {
    Filter(places, (p: Place) => p.status == status)
  }

  /** `visited.map(getAlpha2ForPlace).filter(Boolean)`. */
  function ResolvedCodes(visited: seq<Place>, index: map<string, string>): seq<string>
    decreases |visited|
  {
    if visited == [] then []
    else
      var rest := ResolvedCodes(visited[1..], index);
      match Alpha2For(Some(visited[0]), index)
      case Some(c) => if c != "" then [c] + rest else rest
      case None => rest
  }

  /** The resolved codes are exactly the codes some place resolves to. */
  lemma {:induction false} ResolvedCodesMembers(visited: seq<Place>, index: map<string, string>)
    ensures forall c | c in ResolvedCodes(visited, index) :: exists p | p in visited :: Alpha2For(Some(p), index) == Some(c)
    ensures forall p | p in visited && Alpha2For(Some(p), index).Some? :: Alpha2For(Some(p), index).value in ResolvedCodes(visited, index)
    decreases |visited|
  {
    if visited != [] {
      ResolvedCodesMembers(visited[1..], index);
      assert forall p | p in visited :: p == visited[0] || p in visited[1..];
      assert forall p | p in visited[1..] :: p in visited;
    }
  }

  /** `visited.map(p => (p.country || "").trim()).filter(Boolean)`. */
  function CountryNames(visited: seq<Place>): seq<string>
    decreases |visited|
  {
    if visited == [] then []
    else
      var c := Trim(visited[0].country);
      (if c != "" then [c] else []) + CountryNames(visited[1..])
  }

  /** The listed names are exactly the non-empty trimmed country names. */
  lemma {:induction false} CountryNamesMembers(visited: seq<Place>)
    ensures forall c | c in CountryNames(visited) :: exists p | p in visited :: c == Trim(p.country) && c != ""
    ensures forall p | p in visited && Trim(p.country) != "" :: Trim(p.country) in CountryNames(visited)
    decreases |visited|
  {
    if visited != [] {
      var rest := CountryNames(visited[1..]);
      CountryNamesMembers(visited[1..]);
      assert forall p | p in visited :: p == visited[0] || p in visited[1..];
      forall d | d in CountryNames(visited) ensures exists p | p in visited :: d == Trim(p.country) && d != "" {
        if d in rest {
          var p :| p in visited[1..] && d == Trim(p.country) && d != "";
          assert p in visited;
        } else {
          assert visited[0] in visited;
        }
      }
    }
  }

  function ToSet(s: seq<string>): set<string> {
    set x | x in s
  }

  /** `stats`: the visited and wishlist counts and the number of distinct visited
      countries, by code when the table is non-empty and by name otherwise. */
  function PlaceStats(places: seq<Place>, index: map<string, string>): Stats {
    var visited := WithStatus(places, "visited");
    var wishlist := WithStatus(places, "wishlist");
    var countries :=
      if |index| > 0 then ToSet(ResolvedCodes(visited, index)) else ToSet(CountryNames(visited));
    Stats(|visited|, |wishlist|, |countries|)
  }

  /** `visitedCountrySetIso2` as a set: the resolved codes of the visited places. */
  function VisitedCodes(places: seq<Place>, index: map<string, string>): set<string> {
    set p | p in places && p.status == "visited" && Alpha2For(Some(p), index).Some? :: Alpha2For(Some(p), index).value
  }

  /** The two status counts count disjoint places, so together they never exceed
      the number of places. */
  lemma StatsCountsBounded(places: seq<Place>, index: map<string, string>)
    ensures PlaceStats(places, index).visitedCount + PlaceStats(places, index).wishlistCount <= |places|
  {
    DisjointFiltersBounded(places, (p: Place) => p.status == "visited", (p: Place) => p.status == "wishlist");
  }

  /** With a non-empty table the country count is the size of the visited-country
      set the map is shaded with. */
  lemma StatsCountMatchesVisitedSet(places: seq<Place>, index: map<string, string>)
    requires |index| > 0
    ensures PlaceStats(places, index).countriesCount == |VisitedCodes(places, index)|
  {
    var visited := WithStatus(places, "visited");
    var codes := ToSet(ResolvedCodes(visited, index));
    ResolvedCodesMembers(visited, index);
    forall c ensures c in codes <==> c in VisitedCodes(places, index) {
      if c in codes {
        var p :| p in visited && Alpha2For(Some(p), index) == Some(c);
      }
      if c in VisitedCodes(places, index) {
        var p :| p in places && p.status == "visited" && Alpha2For(Some(p), index) == Some(c);
        assert p in visited;
      }
    }
    assert codes == VisitedCodes(places, index);
  }

  /** With an empty table the country count is the number of distinct non-empty
      trimmed country names of the visited places. */
  lemma StatsNameFallback(places: seq<Place>, index: map<string, string>)
    requires |index| == 0
    ensures PlaceStats(places, index).countriesCount
      == |set p | p in places && p.status == "visited" && Trim(p.country) != "" :: Trim(p.country)|
  {
    var visited := WithStatus(places, "visited");
    var names := ToSet(CountryNames(visited));
    CountryNamesMembers(visited);
    var spec := set p | p in places && p.status == "visited" && Trim(p.country) != "" :: Trim(p.country);
    forall c ensures c in names <==> c in spec {
      if c in names {
        var p :| p in visited && c == Trim(p.country) && c != "";
      }
      if c in spec {
        var p :| p in places && p.status == "visited" && Trim(p.country) != "" && c == Trim(p.country);
        assert p in visited;
      }
    }
    assert names == spec;
  }

  /** Two visited places that resolve to the same code make up one visited country. */
  lemma PairVisitedCodes(a: Place, b: Place, index: map<string, string>, code: string)
    requires a.status == "visited" && b.status == "visited"
    requires Alpha2For(Some(a), index) == Some(code) && Alpha2For(Some(b), index) == Some(code)
    ensures VisitedCodes([a, b], index) == {code}
  {
    forall c ensures c in VisitedCodes([a, b], index) <==> c == code {
      if c == code {
        assert a in [a, b];
      }
    }
  }

  /** Two visited places without a code whose country names share a table key
      make up one visited country. */
  lemma SameKeyOneCode(a: Place, b: Place, index: map<string, string>)
    requires a.status == "visited" && b.status == "visited" && !HasCode(a) && !HasCode(b)
    requires CountryKey(a) == CountryKey(b) && CountryKey(a) in index && index[CountryKey(a)] != ""
    ensures VisitedCodes([a, b], index) == {index[CountryKey(a)]}
  {
    CountryNameLookup(a, index);
    CountryNameLookup(b, index);
    PairVisitedCodes(a, b, index, index[CountryKey(a)]);
  }

  /** Two visited places without a code whose country names share a table key
      count as one country. */
  lemma SameKeyOneCountry(a: Place, b: Place, index: map<string, string>)
    requires a.status == "visited" && b.status == "visited" && !HasCode(a) && !HasCode(b)
    requires CountryKey(a) == CountryKey(b) && CountryKey(a) in index && index[CountryKey(a)] != ""
    ensures PlaceStats([a, b], index).countriesCount == 1
  {
    StatsCountMatchesVisitedSet([a, b], index);
    SameKeyOneCode(a, b, index);
  }

  /** The set of trimmed names of two visited places with non-empty trimmed names. */
  lemma NamesOfPair(a: Place, b: Place)
    requires a.status == "visited" && b.status == "visited"
    requires Trim(a.country) != "" && Trim(b.country) != ""
    ensures (set p | p in [a, b] && p.status == "visited" && Trim(p.country) != "" :: Trim(p.country))
      == {Trim(a.country), Trim(b.country)}
  {
  }

  /** Two visited places with different non-empty trimmed country names count as
      two countries when the table is empty. */
  lemma TwoVisitedNames(a: Place, b: Place)
    requires a.status == "visited" && b.status == "visited"
    requires Trim(a.country) != "" && Trim(b.country) != "" && Trim(a.country) != Trim(b.country)
    ensures PlaceStats([a, b], map[]).countriesCount == 2
  {
    StatsNameFallback([a, b], map[]);
    NamesOfPair(a, b);
  }

  /** The name fallback does not fold case, the table lookup does: two visited
      places whose trimmed country names differ only in case count as two
      countries with an empty table, and as one once the table has their key. */
  lemma FallbackIsCaseSensitive(a: Place, b: Place, index: map<string, string>)
    requires a.status == "visited" && b.status == "visited" && !HasCode(a) && !HasCode(b)
    requires Trim(a.country) != "" && Trim(b.country) != "" && Trim(a.country) != Trim(b.country)
    requires CountryKey(a) == CountryKey(b) && CountryKey(a) in index && index[CountryKey(a)] != ""
    ensures PlaceStats([a, b], map[]).countriesCount == 2
    ensures PlaceStats([a, b], index).countriesCount == 1
  {
    TwoVisitedNames(a, b);
    SameKeyOneCountry(a, b, index);
  }

  /** "France" and "france " are such a pair: different once trimmed, the same
      key once lower-cased. */
  lemma FranceSpellings(a: Place, b: Place)
    requires a.country == "France" && b.country == "france "
    ensures Trim(a.country) != "" && Trim(b.country) != "" && Trim(a.country) != Trim(b.country)
    ensures CountryKey(a) == CountryKey(b) == "france"
  {
    TrimFranceExample();
    TrimFranceSpaceExample();
    assert "France"[0] != "france"[0];
    LowerFranceExample();
  }

  /** Visited places in "France" and "france " without codes count as two
      countries with an empty table and as one with a table that knows "france". */
  lemma FranceCountsTwiceByName(a: Place, b: Place, index: map<string, string>)
    requires a.status == "visited" && b.status == "visited" && !HasCode(a) && !HasCode(b)
    requires a.country == "France" && b.country == "france "
    requires "france" in index && index["france"] != ""
    ensures PlaceStats([a, b], map[]).countriesCount == 2
    ensures PlaceStats([a, b], index).countriesCount == 1
  {
    FranceSpellings(a, b);
    FallbackIsCaseSensitive(a, b, index);
  }

  /** `visitedCountrySetIso2`: built by a `forEach` loop that adds each visited
      place's resolved code. */
  method VisitedCountrySet(places: seq<Place>, index: map<string, string>) returns (s: set<string>)
    ensures s == VisitedCodes(places, index)
  {
    s := {};
    for i := 0 to |places|
      invariant s == VisitedCodes(places[..i], index)
    {
      var p := places[i];
      if p.status == "visited" {
        var c := Alpha2For(Some(p), index);
        if c.Some? && c.value != "" {
          s := s + {c.value};
        }
      }
      assert places[..i + 1] == places[..i] + [p];
    }
    assert places[..|places|] == places;
  }

  /** The `visited` test of `countryStyle`: the feature's code is non-empty and in the set. */
  predicate IsVisitedFeature(props: Props, visited: set<string>, conv: Coercion) {
    var code := FeatureCode(props, conv);
    code != "" && code in visited
  }

  /** A feature is shaded exactly when some visited place resolves to its code. */
  lemma ShadedIffVisitedPlace(props: Props, places: seq<Place>, index: map<string, string>, conv: Coercion)
    ensures IsVisitedFeature(props, VisitedCodes(places, index), conv) <==>
      FeatureCode(props, conv) != "" &&
      exists p | p in places :: p.status == "visited" && Alpha2For(Some(p), index) == Some(FeatureCode(props, conv))
  {
    var code := FeatureCode(props, conv);
    if IsVisitedFeature(props, VisitedCodes(places, index), conv) {
      var p :| p in places && p.status == "visited" && Alpha2For(Some(p), index).Some? && Alpha2For(Some(p), index).value == code;
    }
  }

  /** A visited place without a code whose country is the name of a boundary
      feature (and no later feature claims that name) shades that feature. */
  lemma NamedPlaceShadesFeature(features: seq<Props>, conv: Coercion, i: nat, places: seq<Place>, p: Place)
    requires i < |features| && FeatureCode(features[i], conv) != "" && FeatureName(features[i], conv) != ""
    requires p in places && p.status == "visited" && !HasCode(p)
    requires CountryKey(p) == FeatureName(features[i], conv)
    requires forall j :: i < j < |features| ==> !Writes(features[j], CountryKey(p), conv)
    ensures IsVisitedFeature(features[i], VisitedCodes(places, IndexOf(features, conv)), conv)
  {
    var index := IndexOf(features, conv);
    IndexLastWriterWins(features, conv, CountryKey(p), i);
    assert Alpha2For(Some(p), index) == Some(FeatureCode(features[i], conv));
  }
}
