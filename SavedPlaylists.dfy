/** `PlaylistStore`: the saved playlist sources, kept as one JSON text under `playlists_json`,
    and the id of the active one. The JSON text is held in its decoded form. */
module SavedPlaylists {
  import opened Wrappers
  import opened Model

  const PLAYLISTS_KEY: string := "playlists_json"
  const ACTIVE_PLAYLIST_ID_KEY: string := "active_playlist_id"

  /** A stored JSON text, by what decoding it yields: a blank text, a text that does not decode
      as a list of entries, or the encoding of a list. `json.encodeToString(list)` produces
      `Encoded(list)`. */
  datatype StoredJson = BlankText | Undecodable | Encoded(entries: seq<PlaylistEntry>)

  /** The store's preferences: the JSON text key and the string key. */
  datatype PlaylistPrefs = PlaylistPrefs(json: map<string, StoredJson>, strings: map<string, string>)

  const EMPTY: PlaylistPrefs := PlaylistPrefs(map[], map[])

  /** `decode(raw)`: a null or blank text, or one that fails to decode, is the empty list. */
  function Decode(raw: Option<StoredJson>): (entries: seq<PlaylistEntry>)
    ensures raw.Some? && raw.value.Encoded? ==> entries == raw.value.entries
    ensures raw.None? || !raw.value.Encoded? ==> entries == []
  {
    match raw
    case None => []
    case Some(BlankText) => []
    case Some(Undecodable) => []
    case Some(Encoded(list)) => list
  }

  /** `playlistsFlow`. Its decoding failure falls back to the empty list as `decode` does (a blank
      text fails to decode), so it reads the same list. */
  function Playlists(p: PlaylistPrefs): seq<PlaylistEntry> {
    Decode(Get(p.json, PLAYLISTS_KEY))
  }

  /** `activePlaylistIdFlow`. */
  function ActiveId(p: PlaylistPrefs): Option<string> {
    Get(p.strings, ACTIVE_PLAYLIST_ID_KEY)
  }

  /** `list.map { p -> if (p.id == id) p.copy(lastUsedAt = now) else p }`. */
  function Touched(list: seq<PlaylistEntry>, id: string, now: int): (r: seq<PlaylistEntry>)
    ensures |r| == |list|
    ensures forall i :: 0 <= i < |list| && list[i].id != id ==> r[i] == list[i]
    ensures forall i :: 0 <= i < |list| && list[i].id == id ==>
      r[i].lastUsedAt == Some(now) && r[i].(lastUsedAt := list[i].lastUsedAt) == list[i]
  {
    seq(|list|, i requires 0 <= i < |list| => if list[i].id == id then list[i].(lastUsedAt := Some(now)) else list[i])
  }

  /** Marking the same playlist used at the same time twice is marking it once. */
  lemma TouchedIdempotent(list: seq<PlaylistEntry>, id: string, now: int)
    ensures Touched(Touched(list, id, now), id, now) == Touched(list, id, now)
  {
  }

  /** The ids, and so the order of the playlists, are kept. */
  lemma TouchedKeepsIds(list: seq<PlaylistEntry>, id: string, now: int)
    ensures forall i :: 0 <= i < |list| ==> Touched(list, id, now)[i].id == list[i].id
  {
  }

  /** The `edit` of `saveNewPlaylist(entry)`: the entry is appended to the decoded list and becomes
      the active playlist. */
  function WithNewPlaylist(p: PlaylistPrefs, entry: PlaylistEntry): (r: PlaylistPrefs)
    ensures Playlists(r) == Playlists(p) + [entry]
    ensures ActiveId(r) == Some(entry.id)
    ensures r.json - {PLAYLISTS_KEY} == p.json - {PLAYLISTS_KEY}
    ensures r.strings - {ACTIVE_PLAYLIST_ID_KEY} == p.strings - {ACTIVE_PLAYLIST_ID_KEY}
  {
    PlaylistPrefs(p.json[PLAYLISTS_KEY := Encoded(Playlists(p) + [entry])],
                  p.strings[ACTIVE_PLAYLIST_ID_KEY := entry.id])
  }

  /** The `edit` of `setActivePlaylist(id)`: a null id removes the key. */
  function WithActive(p: PlaylistPrefs, id: Option<string>): (r: PlaylistPrefs)
    ensures ActiveId(r) == id
    ensures r.json == p.json
    ensures r.strings - {ACTIVE_PLAYLIST_ID_KEY} == p.strings - {ACTIVE_PLAYLIST_ID_KEY}
  {
    p.(strings := if id.Some? then p.strings[ACTIVE_PLAYLIST_ID_KEY := id.value]
                  else p.strings - {ACTIVE_PLAYLIST_ID_KEY})
  }

  /** The `edit` of `updateLastUsed(id)` at time `now`. */
  function WithLastUsed(p: PlaylistPrefs, id: string, now: int): (r: PlaylistPrefs)
    ensures Playlists(r) == Touched(Playlists(p), id, now)
    ensures r.strings == p.strings
    ensures r.json - {PLAYLISTS_KEY} == p.json - {PLAYLISTS_KEY}
  {
    p.(json := p.json[PLAYLISTS_KEY := Encoded(Touched(Playlists(p), id, now))])
  }

  class PlaylistStore {
    var prefs: PlaylistPrefs

    constructor()
      ensures prefs == EMPTY && Playlists(prefs) == [] && ActiveId(prefs) == None
    {
      prefs := EMPTY;
    }

    method SaveNewPlaylist(entry: PlaylistEntry)
      modifies this
      ensures prefs == WithNewPlaylist(old(prefs), entry)
    {
      var current := Decode(Get(prefs.json, PLAYLISTS_KEY));
      var json := prefs.json[PLAYLISTS_KEY := Encoded(current + [entry])];
      prefs := PlaylistPrefs(json, prefs.strings[ACTIVE_PLAYLIST_ID_KEY := entry.id]);
    }

    method SetActivePlaylist(id: Option<string>)
      modifies this
      ensures prefs == WithActive(old(prefs), id)
    {
      if id.Some? {
        prefs := prefs.(strings := prefs.strings[ACTIVE_PLAYLIST_ID_KEY := id.value]);
      } else {
        prefs := prefs.(strings := prefs.strings - {ACTIVE_PLAYLIST_ID_KEY});
      }
    }

    /** `updateLastUsed(id)`; `now` stands for `System.currentTimeMillis()`. */
    method UpdateLastUsed(id: string, now: int)
      modifies this
      ensures prefs == WithLastUsed(old(prefs), id, now)
    {
      var current := Decode(Get(prefs.json, PLAYLISTS_KEY));
      var updated := seq(|current|, i requires 0 <= i < |current| =>
        if current[i].id == id then current[i].(lastUsedAt := Some(now)) else current[i]);
      prefs := prefs.(json := prefs.json[PLAYLISTS_KEY := Encoded(updated)]);
    }
  }
}
