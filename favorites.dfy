/**
 * The favourites hook. Browser storage under the favourites key is a field
 * of the hook object; what `JSON.parse` makes of the stored text is given
 * directly.
 */
module FavoritesHook {
  import opened Lists

  /** What `localStorage.getItem` finds, read through `JSON.parse`. */
  datatype Stored =
    | Missing             // no entry, or the empty string
    | Unparsable          // `JSON.parse` throws
    | Saved(ids: seq<string>)

  /** `getFavorites`: the saved list, or the empty list on the server and when nothing usable is saved. */
  function GetFavorites(onServer: bool, storage: Stored): (ids: seq<string>)
    ensures onServer ==> ids == []
    ensures !onServer && storage.Saved? ==> ids == storage.ids
    ensures !storage.Saved? ==> ids == []
  {
    if onServer then []
    else match storage
      case Saved(ids) => ids
      case _ => []
  }

  /** The updater inside `toggleFavorite`. */
  function NextFavorites(prev: seq<string>, id: string): (next: seq<string>)
    ensures id in next <==> id !in prev
    ensures forall x :: x != id ==> (x in next <==> x in prev)
    ensures id !in prev ==> next == prev + [id]
  {
    ToggleFlips(prev, id);
    Toggle(prev, id)
  }

  /** Adding an id and toggling it again gives back the list before, and a list without repeats keeps none. */
  lemma NextFavoritesFacts(prev: seq<string>, id: string)
    ensures id !in prev ==> NextFavorites(NextFavorites(prev, id), id) == prev
    ensures NoDup(prev) ==> NoDup(NextFavorites(prev, id))
    ensures Remove(NextFavorites(prev, id), id) == Remove(prev, id)
  {
    if id !in prev {
      ToggleTwiceRestores(prev, id);
    }
    if NoDup(prev) {
      ToggleKeepsNoDup(prev, id);
    }
    ToggleKeepsOthers(prev, id);
  }

  class Favorites {
    var favorites: seq<string>
    var storage: Stored

    /** The hook's first render: no favourites yet, whatever is stored. */
    constructor(storage: Stored)
      ensures this.favorites == [] && this.storage == storage
    {
      this.favorites := [];
      this.storage := storage;
    }

    /** The mount effect, which runs in the browser only: load what storage holds. */
    method Mount()
      modifies this
      ensures favorites == GetFavorites(false, storage)
      ensures storage == old(storage)
    {
      match storage {
        case Saved(ids) => favorites := ids;
        case _ => favorites := [];
      }
    }

    /** `toggleFavorite`: flip the id, and write the new list to storage. */
    method ToggleFavorite(id: string)
      modifies this
      ensures favorites == NextFavorites(old(favorites), id)
      ensures storage == Saved(favorites)
      ensures IsFavorite(id) <==> !old(IsFavorite(id))
    {
      var next := if id in favorites then Remove(favorites, id) else favorites + [id];
      storage := Saved(next);
      favorites := next;
    }

    /** `isFavorite`. */
    predicate IsFavorite(id: string)
      reads this
    {
      id in favorites
    }
  }
}
