/** The records of the app's data model: channels, category facets and saved playlists. */
module Model {
  import opened Wrappers

  /** One playlist entry. `streamUrl` identifies the channel everywhere (favorites, hidden set,
      recents); the optional fields are `null` when the playlist did not carry them. */
  datatype Channel = Channel(
    name: string,
    streamUrl: string,
    logoUrl: Option<string>,
    groupTitle: Option<string>,
    country: Option<string>,
    language: Option<string>,
    tvgId: Option<string>,
    tvgName: Option<string>)

  datatype CategoryType = GROUP | COUNTRY

  /** A facet value and the number of channel tokens that carry it. */
  datatype CategoryItem = CategoryItem(name: string, categoryType: CategoryType, count: int)

  datatype PlaylistType = URL | FILE | XTREAM

  /** A saved playlist source; times are milliseconds since the epoch. */
  datatype PlaylistEntry = PlaylistEntry(
    id: string,
    name: string,
    playlistType: PlaylistType,
    url: string,
    createdAt: int,
    lastUsedAt: Option<int>)
}
