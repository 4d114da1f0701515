/**
  The travel log's state: the place collection, the selected place, the last
  clicked map position and the stored copy of the collection, with the
  mutators of the user interface.
 */
module TravelLog {
  import opened JsText
  import opened JsValue
  import opened Places
  import opened Import

  /** The position the "add place" form starts from (Budapest). */
  const StartCoords: (Num, Num) := (Finite(47.4979), Finite(19.0402))

  /** The status the row button switches to: `"wishlist"` from `"visited"`, and
      `"visited"` from anything else. */
  function Flip(status: string): (r: string)
    ensures r == "wishlist" || r == "visited"
  {
    if status == "visited" then "wishlist" else "visited"
  }

  /** The two statuses swap, so switching twice gives back the status. */
  lemma FlipSwaps(status: string)
    requires status == "visited" || status == "wishlist"
    ensures Flip(status) != status
    ensures Flip(Flip(status)) == status
  {
    assert "wishlist"[0] != "visited"[0];
  }

  /** What the row's status button does to the collection as written: the edit
      goes to the place that is selected when the button is pressed, with the
      flipped status of the row. */
  function ToggleAsWritten(places: seq<Place>, selectedId: Json, row: Place): (r: seq<Place>)
    ensures |r| == |places|
    ensures forall i :: 0 <= i < |places| && places[i].id != selectedId ==> r[i] == places[i]
    ensures forall i :: 0 <= i < |places| && places[i].id == selectedId ==>
              r[i] == places[i].(status := Flip(row.status))
  {
    UpdateById(places, selectedId, SetStatus(Flip(row.status)))
  }

  /** The row button as written leaves a wishlist row alone when a visited place
      is selected: the selected place gets "visited" again, the row keeps
      "wishlist". */
  lemma ToggleAsWrittenMissesRow(a: Place, b: Place)
    requires a.id != b.id && a.status == "visited" && b.status == "wishlist"
    ensures ToggleAsWritten([a, b], a.id, b) == [a, b]
    ensures ToggleAsWritten([a, b], a.id, b)[1].status == "wishlist"
  {
    var r := ToggleAsWritten([a, b], a.id, b);
    assert r[1] == b;
    assert Flip(b.status) == "visited" by {
      assert "wishlist"[0] != "visited"[0];
    }
    assert r[0] == a;
  }

  /** With nothing selected the row button as written changes no place. */
  lemma ToggleAsWrittenUnselected(places: seq<Place>, row: Place)
    requires forall i :: 0 <= i < |places| ==> places[i].id != JNull
    ensures ToggleAsWritten(places, JNull, row) == places
  {
    UpdateMissingId(places, JNull, SetStatus(Flip(row.status)));
  }

  /** The row button as intended: the places with the row's id get its status
      flipped, every other place stays the same. */
  function ToggleRowStatus(places: seq<Place>, row: Place): (r: seq<Place>)
    ensures |r| == |places|
  {
    UpdateById(places, row.id, SetStatus(Flip(row.status)))
  }

  /** The row's own place gets the flipped status, the others are untouched. */
  lemma ToggleRowFlips(places: seq<Place>, row: Place, i: nat)
    requires i < |places|
    ensures places[i].id == row.id ==> ToggleRowStatus(places, row)[i] == places[i].(status := Flip(row.status))
    ensures places[i].id != row.id ==> ToggleRowStatus(places, row)[i] == places[i]
  {
  }

  /** Pressing the button on a listed row of a known status changes that row's
      status. */
  lemma ToggleRowChangesRow(places: seq<Place>, i: nat)
    requires i < |places| && (places[i].status == "visited" || places[i].status == "wishlist")
    ensures ToggleRowStatus(places, places[i])[i].status != places[i].status
  {
    ToggleRowFlips(places, places[i], i);
    FlipSwaps(places[i].status);
  }

  class TravelLog {
    /** The place collection, newest first. */
    var places: seq<Place>
    /** The id of the selected place; `JNull` when none is selected. */
    var selectedId: Json
    /** The last clicked map position, the fallback for missing coordinates. */
    var newCoords: Option<(Num, Num)>
    /** The copy of the collection in browser storage. */
    var stored: seq<Place>

    /** Storage holds the current collection: it is rewritten after every change. */
    predicate Saved()
      reads this
    {
      stored == places
    }

    /** The first render: the stored collection when there is one, otherwise the
        two sample places (with fresh ids `id1`, `id2`); nothing selected. */
    constructor(loaded: Option<seq<Place>>, id1: string, id2: string)
      ensures loaded.Some? ==> places == loaded.value
      ensures loaded.None? ==> places == SeedPlaces(id1, id2)
      ensures selectedId == JNull && newCoords == Some(StartCoords)
      ensures Saved()
    {
      places := if loaded.Some? then loaded.value else SeedPlaces(id1, id2);
      selectedId := JNull;
      newCoords := Some(StartCoords);
      stored := places;
    }

    /** Selecting a place from the list, the map or a popup; `JNull` closes the panel. */
    method Select(id: Json)
      modifies this
      ensures selectedId == id
      ensures places == old(places) && newCoords == old(newCoords) && stored == old(stored)
    {
      selectedId := id;
    }

    /** A click on the map records its position. */
    method MapClick(lat: Num, lng: Num)
      modifies this
      ensures newCoords == Some((lat, lng))
      ensures places == old(places) && selectedId == old(selectedId) && stored == old(stored)
    {
      newCoords := Some((lat, lng));
    }

    /** `addPlaceFromForm`: the new place (id `id`) goes in front of the others;
        with an empty trimmed name nothing changes. */
    method AddPlaceFromForm(form: PlaceForm, id: string, conv: Coercion)
      requires Saved()
      modifies this
      ensures Trim(form.name) == "" ==> places == old(places)
      ensures Trim(form.name) != "" ==>
        places == [PlaceFromForm(form, id, old(newCoords), conv).value] + old(places)
      ensures selectedId == old(selectedId) && newCoords == old(newCoords)
      ensures Saved()
    {
      var created := PlaceFromForm(form, id, newCoords, conv);
      if created.None? {
        return;
      }
      places := [created.value] + places;
      stored := places;
    }

    /** `updateSelected(field, value)`: the edit applies to the selected place. */
    method UpdateSelected(e: Edit)
      modifies this
      ensures places == UpdateById(old(places), old(selectedId), e)
      ensures selectedId == old(selectedId) && newCoords == old(newCoords)
      ensures Saved()
    {
      places := UpdateById(places, selectedId, e);
      stored := places;
    }

    /** `removePlace(id)`: the places with that id go; the selection is cleared
        exactly when it was that id. */
    method RemovePlace(id: Json)
      modifies this
      ensures places == RemoveById(old(places), id)
      ensures old(selectedId) == id ==> selectedId == JNull
      ensures old(selectedId) != id ==> selectedId == old(selectedId)
      ensures newCoords == old(newCoords)
      ensures Saved()
    {
      places := RemoveById(places, id);
      if selectedId == id {
        selectedId := JNull;
      }
      stored := places;
    }

    /** `importJson`: a parsed array without null elements replaces the
        collection; anything else leaves it, and storage, as they were. The
        selection is kept either way. */
    method ImportJson(parsed: Option<Json>, freshId: nat -> string, conv: Coercion)
      requires Saved()
      modifies this
      ensures !Importable(parsed) ==> places == old(places)
      ensures Importable(parsed) ==> places == ImportPlaces(parsed, freshId, conv).value
      ensures selectedId == old(selectedId) && newCoords == old(newCoords)
      ensures Saved()
    {
      var imported := ImportPlaces(parsed, freshId, conv);
      if imported.Some? {
        places := imported.value;
        stored := places;
      }
    }

    /** The row's status button, with the edit going to the row's own place, and
        the row selected afterwards. */
    method ToggleRow(row: Place)
      modifies this
      ensures places == ToggleRowStatus(old(places), row)
      ensures selectedId == row.id && newCoords == old(newCoords)
      ensures Saved()
    {
      places := ToggleRowStatus(places, row);
      selectedId := row.id;
      stored := places;
    }
  }
}
