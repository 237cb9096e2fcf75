/** The application store: one state record and its five reducers. */
module Reducer {
  import opened Wrappers
  import opened Sequences
  import opened Requests

  /** The favorites list after `updateFavorites(id)`: drop every `id` if present, else append it. */
  function Toggled(favorites: seq<string>, id: string): (r: seq<string>)
    ensures id in r <==> id !in favorites
    ensures forall i :: 0 <= i < |favorites| && favorites[i] != id ==> favorites[i] in r
    ensures forall i :: 0 <= i < |r| && r[i] != id ==> r[i] in favorites
  {
    if id in favorites then RemoveMembers(favorites, id); Remove(favorites, id) else favorites + [id]
  }

  /**
   * Toggling twice from a list without `id` restores the list exactly; from a list
   * with `id` it restores membership, with `id` now once, at the end.
   */
  lemma ToggleTwice(favorites: seq<string>, id: string)
    ensures id !in favorites ==> Toggled(Toggled(favorites, id), id) == favorites
    ensures id in favorites ==> Toggled(Toggled(favorites, id), id) == Remove(favorites, id) + [id]
    ensures forall y :: y in Toggled(Toggled(favorites, id), id) <==> y in favorites
  {
    var back := Toggled(Toggled(favorites, id), id);
    if id !in favorites {
      RemoveAppend(favorites, [id], id);
      RemoveAbsent(favorites, id);
      assert [id][1..] == [];
    }
    forall y ensures y in back <==> y in favorites {
      if y != id && y in favorites {
        var i :| 0 <= i < |favorites| && favorites[i] == y;
        assert y in Toggled(favorites, id);
      }
    }
  }

  /** `updateFavorites` keeps a duplicate-free list duplicate-free. */
  lemma ToggleKeepsNoDup(favorites: seq<string>, id: string)
    requires NoDup(favorites)
    ensures NoDup(Toggled(favorites, id))
  {
    if id in favorites {
      RemoveKeepsNoDup(favorites, id);
    } else {
      var r := favorites + [id];
      forall i, j | 0 <= i < j < |r| ensures r[i] != r[j] {
        if j == |favorites| {
          assert r[i] == favorites[i];
        }
      }
    }
  }

  /** `AppState`, updated in place by the reducers. */
  class AppState {
    var loggedIn: bool
    var dogs: seq<Dog>
    var favorites: seq<string>
    var matched: Option<Dog>
    var location: Option<Location>

    /** `initialState`: logged out, no dogs, no favorites, no match, no location. */
    constructor ()
      ensures !loggedIn && dogs == [] && favorites == []
      ensures matched == None && location == None
      ensures NoDup(favorites)
    {
      loggedIn := false;
      dogs := [];
      favorites := [];
      matched := None;
      location := None;
    }

    /** `setLoginStatus`: logging out does not clear favorites, match or location. */
    method SetLoginStatus(status: bool)
      modifies this
      ensures loggedIn == status
      ensures dogs == old(dogs) && favorites == old(favorites)
      ensures matched == old(matched) && location == old(location)
    {
      loggedIn := status;
    }

    method SetDogs(newDogs: seq<Dog>)
      modifies this
      ensures dogs == newDogs
      ensures loggedIn == old(loggedIn) && favorites == old(favorites)
      ensures matched == old(matched) && location == old(location)
    {
      dogs := newDogs;
    }

    /** `updateFavorites(id)`: remove every `id` when present, otherwise push it. */
    method UpdateFavorites(id: string)
      modifies this
      ensures favorites == Toggled(old(favorites), id)
      ensures id !in old(favorites) ==> favorites == old(favorites) + [id]
      ensures id in old(favorites) ==> favorites == Remove(old(favorites), id)
      ensures NoDup(old(favorites)) ==> NoDup(favorites)
      ensures loggedIn == old(loggedIn) && dogs == old(dogs)
      ensures matched == old(matched) && location == old(location)
    {
      if id in favorites {
        favorites := Remove(favorites, id);
      } else {
        favorites := favorites + [id];
      }
      if NoDup(old(favorites)) {
        ToggleKeepsNoDup(old(favorites), id);
      }
    }

    method UpdateMatch(dog: Dog)
      modifies this
      ensures matched == Some(dog)
      ensures loggedIn == old(loggedIn) && dogs == old(dogs)
      ensures favorites == old(favorites) && location == old(location)
    {
      matched := Some(dog);
    }

    /** `updateLocation`: the payload may be `undefined`, which clears the stored location. */
    method UpdateLocation(newLocation: Option<Location>)
      modifies this
      ensures location == newLocation
      ensures loggedIn == old(loggedIn) && dogs == old(dogs)
      ensures favorites == old(favorites) && matched == old(matched)
    {
      location := newLocation;
    }
  }
}
