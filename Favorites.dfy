/** `FavoritesStore`: the stream URLs of the favorite channels, kept under one string-set key. */
module Favorites {
  import opened Preferences

  const FAVORITES_KEY: string := "favorite_stream_urls"

  /** `favoritesFlow`: the stored set, or the empty set when none was ever stored. */
  function FavoriteIds(p: Prefs): set<string> {
    StringSet(p, FAVORITES_KEY)
  }

  /** The `edit` of `toggleFavorite(id)`: removes `id` when present, adds it when absent, and
      touches nothing else. */
  function Toggle(p: Prefs, id: string): (r: Prefs)
    ensures id in FavoriteIds(r) <==> id !in FavoriteIds(p)
    ensures forall other :: other != id ==> (other in FavoriteIds(r) <==> other in FavoriteIds(p))
    ensures r.bools == p.bools && r.strings == p.strings
    ensures r.stringSets - {FAVORITES_KEY} == p.stringSets - {FAVORITES_KEY}
  {
    var current := FavoriteIds(p);
    p.(stringSets := p.stringSets[FAVORITES_KEY := if id in current then current - {id} else current + {id}])
  }

  /** The `edit` of `setFavorites(ids)`. */
  function Replace(p: Prefs, ids: set<string>): (r: Prefs)
    ensures FavoriteIds(r) == ids
    ensures r.bools == p.bools && r.strings == p.strings
    ensures r.stringSets - {FAVORITES_KEY} == p.stringSets - {FAVORITES_KEY}
  {
    p.(stringSets := p.stringSets[FAVORITES_KEY := ids])
  }

  /** Toggling the same id twice restores the favorites. */
  lemma ToggleTwice(p: Prefs, id: string)
    ensures FavoriteIds(Toggle(Toggle(p, id), id)) == FavoriteIds(p)
  {
    var once := Toggle(p, id);
    var twice := Toggle(once, id);
    forall x ensures x in FavoriteIds(twice) <==> x in FavoriteIds(p) {
      if x == id {
        assert id in FavoriteIds(twice) <==> id !in FavoriteIds(once);
      } else {
        assert x in FavoriteIds(twice) <==> x in FavoriteIds(once);
      }
    }
  }

  class FavoritesStore {
    var prefs: Prefs

    constructor()
      ensures prefs == EMPTY && FavoriteIds(prefs) == {}
    {
      prefs := EMPTY;
    }

    method SetFavorites(ids: set<string>)
      modifies this
      ensures prefs == Replace(old(prefs), ids)
    {
      prefs := prefs.(stringSets := prefs.stringSets[FAVORITES_KEY := ids]);
    }

    method ToggleFavorite(id: string)
      modifies this
      ensures prefs == Toggle(old(prefs), id)
    {
      var current := FavoriteIds(prefs);
      var updated := if id in current then current - {id} else current + {id};
      prefs := prefs.(stringSets := prefs.stringSets[FAVORITES_KEY := updated]);
    }
  }
}
