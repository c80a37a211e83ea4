/** `ChannelListViewModel`: the UI state of the channel list and its synchronous updates, with the
    small rules around them (recents, playlist names, the Xtream URL, the active playlist URL). */
module ChannelList {
  import opened Wrappers
  import opened Text
  import opened Sequences
  import opened Model
  import opened Categories
  import opened ChannelFilters
  import IPTVRepository
  import Settings
  import SavedPlaylists

  // ---------------------------------------------------------------------------------------------
  // Recently played channels
  // ---------------------------------------------------------------------------------------------

  const MAX_RECENTS: nat := 10

  function OtherStream(url: string): Channel -> bool {
    (c: Channel) => c.streamUrl != url
  }

  /** The recents after `channel` is played: it moves to the front, any older entry with its
      stream URL is dropped, and the list is cut to ten. */
  function RecentsAfterPlay(recents: seq<Channel>, channel: Channel): (r: seq<Channel>)
    ensures 0 < |r| <= MAX_RECENTS && r[0] == channel
    ensures forall i :: 1 <= i < |r| ==> r[i].streamUrl != channel.streamUrl
    ensures |r| == if |Filter(recents, OtherStream(channel.streamUrl))| < MAX_RECENTS
                   then |Filter(recents, OtherStream(channel.streamUrl))| + 1 else MAX_RECENTS
    ensures r[1..] == Filter(recents, OtherStream(channel.streamUrl))[..|r| - 1]
  {
    var r := Take([channel] + Filter(recents, OtherStream(channel.streamUrl)), MAX_RECENTS);
    assert r[1..] == Filter(recents, OtherStream(channel.streamUrl))[..|r| - 1];
    r
  }

  /** The older recents that are kept stay in their order. */
  lemma RecentsKeepOrder(recents: seq<Channel>, channel: Channel)
    ensures IsSubsequence(RecentsAfterPlay(recents, channel)[1..], recents)
  {
    var others := Filter(recents, OtherStream(channel.streamUrl));
    var r := RecentsAfterPlay(recents, channel);
    FilterSubsequence(recents, OtherStream(channel.streamUrl));
    SubsequencePrefix(others, recents, |r| - 1);
  }

  /** No two channels share a stream URL. */
  predicate UniqueStreams(cs: seq<Channel>) {
    forall i, j :: 0 <= i < j < |cs| ==> cs[i].streamUrl != cs[j].streamUrl
  }

  lemma {:induction false} FilterUniqueStreams(cs: seq<Channel>, p: Channel -> bool)
    requires UniqueStreams(cs)
    ensures UniqueStreams(Filter(cs, p))
  {
    if cs != [] {
      assert UniqueStreams(cs[1..]) by {
        forall i, j | 0 <= i < j < |cs[1..]| ensures cs[1..][i].streamUrl != cs[1..][j].streamUrl {
          assert cs[1..][i] == cs[i + 1] && cs[1..][j] == cs[j + 1];
        }
      }
      FilterUniqueStreams(cs[1..], p);
      if p(cs[0]) {
        var rest := Filter(cs[1..], p);
        forall j | 0 <= j < |rest| ensures cs[0].streamUrl != rest[j].streamUrl {
          var k :| 0 <= k < |cs[1..]| && cs[1..][k] == rest[j];
          assert cs[k + 1] == rest[j];
        }
        assert Filter(cs, p) == [cs[0]] + rest;
      }
    }
  }

  lemma ConsUniqueStreams(c: Channel, cs: seq<Channel>)
    requires UniqueStreams(cs) && forall i :: 0 <= i < |cs| ==> cs[i].streamUrl != c.streamUrl
    ensures UniqueStreams([c] + cs)
  {
    var r := [c] + cs;
    forall i, j | 0 <= i < j < |r| ensures r[i].streamUrl != r[j].streamUrl {
      assert r[j] == cs[j - 1];
      if i > 0 {
        assert r[i] == cs[i - 1];
      }
    }
  }

  lemma PrefixUniqueStreams(cs: seq<Channel>, n: nat)
    requires UniqueStreams(cs) && n <= |cs|
    ensures UniqueStreams(cs[..n])
  {
    forall i, j | 0 <= i < j < n ensures cs[..n][i].streamUrl != cs[..n][j].streamUrl {
      assert cs[..n][i] == cs[i] && cs[..n][j] == cs[j];
    }
  }

  /** Playing a channel keeps the recents free of repeated stream URLs. */
  lemma RecentsStayUnique(recents: seq<Channel>, channel: Channel)
    requires UniqueStreams(recents)
    ensures UniqueStreams(RecentsAfterPlay(recents, channel))
  {
    var p := OtherStream(channel.streamUrl);
    var others := Filter(recents, p);
    FilterUniqueStreams(recents, p);
    forall i | 0 <= i < |others| ensures others[i].streamUrl != channel.streamUrl {
      assert others[i] in others;
      assert p(others[i]);
    }
    ConsUniqueStreams(channel, others);
    var full := [channel] + others;
    var r := Take(full, MAX_RECENTS);
    assert r == RecentsAfterPlay(recents, channel);
    PrefixUniqueStreams(full, |r|);
  }

  /** Playing the same channel again right away leaves the recents as they are. */
  lemma RecentsReplayIdempotent(recents: seq<Channel>, channel: Channel)
    ensures RecentsAfterPlay(RecentsAfterPlay(recents, channel), channel) == RecentsAfterPlay(recents, channel)
  {
    var p := OtherStream(channel.streamUrl);
    var once := RecentsAfterPlay(recents, channel);
    assert once == [channel] + once[1..];
    FilterAppend([channel], once[1..], p);
    assert Filter([channel], p) == [] by {
      assert [channel][1..] == [];
    }
    assert Filter(once[1..], p) == once[1..];
    assert Filter(once, p) == once[1..];
  }

  // ---------------------------------------------------------------------------------------------
  // Adding playlists
  // ---------------------------------------------------------------------------------------------

  const DEFAULT_PLAYLIST_NAME: string := "Playlist"
  const DEFAULT_XTREAM_NAME: string := "Xtream"

  /** `name?.ifBlank { null } ?: "Playlist"`: a null or blank name becomes `Playlist`. */
  function PlaylistName(name: Option<string>): (r: string)
    ensures name.Some? && !IsBlank(name.value) ==> r == name.value
    ensures name.None? || IsBlank(name.value) ==> r == DEFAULT_PLAYLIST_NAME
    ensures !IsBlank(r)
  {
    if name.Some? && !IsBlank(name.value) then name.value
    else assert DEFAULT_PLAYLIST_NAME[0] == 'P'; DEFAULT_PLAYLIST_NAME
  }

  /** The entry `addPlaylistUrl(name, url)` saves, with `id` and `now` standing for the random UUID
      and the clock. */
  function NewEntry(name: Option<string>, url: string, id: string, now: int): (e: PlaylistEntry)
    ensures e.id == id && e.url == url && e.createdAt == now && e.lastUsedAt.None?
    ensures e.playlistType == URL && !IsBlank(e.name)
  {
    PlaylistEntry(id, PlaylistName(name), URL, url, now, None)
  }

  /** The base URL with exactly one trailing `/` dropped, if it has one. */
  function FormattedBase(baseUrl: string): (r: string)
    ensures EndsWith(baseUrl, "/") ==> r + "/" == baseUrl
    ensures !EndsWith(baseUrl, "/") ==> r == baseUrl
  {
    if EndsWith(baseUrl, "/") then baseUrl[..|baseUrl| - 1] else baseUrl
  }

  /** The M3U URL of an Xtream Codes account. */
  function XtreamUrl(baseUrl: string, username: string, password: string): string {
    FormattedBase(baseUrl) + "/get.php?username=" + username + "&password=" + password + "&type=m3u"
  }

  /** The Xtream URL consists of the base without one trailing slash, the `get.php` path with the
      user name, the password and the fixed `type=m3u`, in this order; so the base and the
      credentials can be read back from it. */
  lemma XtreamUrlParts(baseUrl: string, username: string, password: string)
    ensures var url := XtreamUrl(baseUrl, username, password);
      var base := FormattedBase(baseUrl);
      var head := base + "/get.php?username=";
      StartsWith(url, head) && EndsWith(url, "&type=m3u") &&
      url[|head|..|head| + |username|] == username &&
      url[|head| + |username|..|url| - |"&type=m3u"|] == "&password=" + password
  {
    var url := XtreamUrl(baseUrl, username, password);
    var head := FormattedBase(baseUrl) + "/get.php?username=";
    assert url == head + username + ("&password=" + password) + "&type=m3u";
  }

  // ---------------------------------------------------------------------------------------------
  // The active playlist
  // ---------------------------------------------------------------------------------------------

  /** `playlists.firstOrNull { it.id == activeId }`: no entry matches a null id. */
  function FirstWithId(playlists: seq<PlaylistEntry>, activeId: Option<string>): (r: Option<PlaylistEntry>)
    ensures r.Some? ==> r.value in playlists && activeId == Some(r.value.id)
    ensures r.None? ==> forall i :: 0 <= i < |playlists| ==> activeId != Some(playlists[i].id)
  {
    if playlists == [] then None
    else if activeId == Some(playlists[0].id) then Some(playlists[0])
    else FirstWithId(playlists[1..], activeId)
  }

  /** The match is the first entry with the active id. */
  lemma {:induction false} FirstWithIdIsFirst(playlists: seq<PlaylistEntry>, activeId: Option<string>, i: nat)
    requires i < |playlists| && activeId == Some(playlists[i].id)
    requires forall j :: 0 <= j < i ==> activeId != Some(playlists[j].id)
    ensures FirstWithId(playlists, activeId) == Some(playlists[i])
  {
    if i > 0 {
      FirstWithIdIsFirst(playlists[1..], activeId, i - 1);
    }
  }

  /** `resolveActivePlaylistUrl`: the URL of the active saved playlist, or the first built-in
      playlist. */
  function ActivePlaylistUrl(playlists: seq<PlaylistEntry>, activeId: Option<string>): (url: string)
    ensures (exists i :: 0 <= i < |playlists| && activeId == Some(playlists[i].id)) ||
      url == IPTVRepository.PLAYLIST_URLS[0]
  {
    match FirstWithId(playlists, activeId)
    case Some(entry) => entry.url
    case None => IPTVRepository.PLAYLIST_URLS[0]
  }

  /** When several saved playlists carry the active id, the first one's URL is used. */
  lemma ActivePlaylistUrlFirstMatch(playlists: seq<PlaylistEntry>, activeId: Option<string>, i: nat)
    requires i < |playlists| && activeId == Some(playlists[i].id)
    requires forall j :: 0 <= j < i ==> activeId != Some(playlists[j].id)
    ensures ActivePlaylistUrl(playlists, activeId) == playlists[i].url
  {
    FirstWithIdIsFirst(playlists, activeId, i);
  }

  // ---------------------------------------------------------------------------------------------
  // The UI state
  // ---------------------------------------------------------------------------------------------

  /** The fields of `ChannelListUiState` that the modelled updates read or write. */
  datatype UiState = UiState(
    channels: seq<Channel>,
    filteredChannels: seq<Channel>,
    playlists: seq<PlaylistEntry>,
    activePlaylistId: Option<string>,
    categories: seq<CategoryItem>,
    filteredCategories: seq<CategoryItem>,
    selectedCategory: Option<CategoryItem>,
    recentChannels: seq<Channel>,
    parentalUnlocked: bool,
    showHidden: bool,
    hiddenChannelIds: set<string>,
    query: string)

  /** The state before anything is loaded. */
  const INITIAL: UiState := UiState([], [], [], None, [], [], None, [], false, false, {}, "")

  /** The filtered lists agree with the channels, categories and filter settings of the state. */
  predicate FiltersCurrent(s: UiState) {
    s.filteredChannels == FilterChannels(s.channels, s.query, s.selectedCategory, s.showHidden, s.hiddenChannelIds) &&
    s.filteredCategories == FilterCategoriesList(s.categories, s.query)
  }

  class ChannelListViewModel {
    var state: UiState
    const playlistStore: SavedPlaylists.PlaylistStore
    const settingsStore: Settings.SettingsStore

    constructor(playlistStore: SavedPlaylists.PlaylistStore, settingsStore: Settings.SettingsStore)
      ensures state == INITIAL && FiltersCurrent(state)
      ensures this.playlistStore == playlistStore && this.settingsStore == settingsStore
    {
      state := INITIAL;
      this.playlistStore := playlistStore;
      this.settingsStore := settingsStore;
      new;
      SubsequenceReflexive<CategoryItem>([]);
    }

    /** `onChannelPlayed(channel)` at time `now`: the active playlist is marked used, the channel
        is stored as last played and moves to the front of the recents. */
    method OnChannelPlayed(channel: Channel, now: int)
      modifies this, playlistStore, settingsStore
      ensures state == old(state).(recentChannels := RecentsAfterPlay(old(state.recentChannels), channel))
      ensures old(state.activePlaylistId).Some? ==>
        playlistStore.prefs == SavedPlaylists.WithLastUsed(old(playlistStore.prefs), old(state.activePlaylistId).value, now)
      ensures old(state.activePlaylistId).None? ==> playlistStore.prefs == old(playlistStore.prefs)
      ensures settingsStore.prefs ==
        Settings.WithLastPlayed(old(settingsStore.prefs), channel.name, channel.streamUrl, channel.logoUrl)
    {
      if state.activePlaylistId.Some? {
        playlistStore.UpdateLastUsed(state.activePlaylistId.value, now);
      }
      settingsStore.SetLastPlayed(channel.name, channel.streamUrl, channel.logoUrl);
      var updatedRecents := RecentsAfterPlay(state.recentChannels, channel);
      state := state.(recentChannels := updatedRecents);
    }

    /** `applyFilters`: the categories are built once, when still empty, and both lists are
        filtered again. */
    method ApplyFilters(query: string, category: Option<CategoryItem>, showHidden: bool, hiddenIds: set<string>)
      modifies this
      ensures state == old(state).(
        query := query,
        selectedCategory := category,
        categories := if old(state.categories) == [] then Categories.Categories(old(state.channels)) else old(state.categories),
        filteredCategories := FilterCategoriesList(state.categories, query),
        filteredChannels := FilterChannels(old(state.channels), query, category, showHidden, hiddenIds),
        showHidden := showHidden)
    {
      var categories := state.categories;
      if categories == [] {
        categories := BuildCategories(state.channels);
      }
      var filteredCats := FilterCategoriesList(categories, query);
      var filteredCh := FilterChannels(state.channels, query, category, showHidden, hiddenIds);
      state := state.(query := query, selectedCategory := category, categories := categories,
                      filteredCategories := filteredCats, filteredChannels := filteredCh,
                      showHidden := showHidden);
    }

    /** `onQueryChange(query)`: a new query clears the selected category. */
    method OnQueryChange(query: string)
      modifies this
      ensures state.query == query && state.selectedCategory.None?
      ensures FiltersCurrent(state)
      ensures state.channels == old(state.channels) && state.showHidden == old(state.showHidden)
      ensures state.hiddenChannelIds == old(state.hiddenChannelIds)
    {
      ApplyFilters(query, None, state.showHidden, state.hiddenChannelIds);
    }

    /** `selectCategory(category)`: selecting a category clears the query. */
    method SelectCategory(category: Option<CategoryItem>)
      modifies this
      ensures state.query == "" && state.selectedCategory == category
      ensures FiltersCurrent(state)
      ensures state.channels == old(state.channels) && state.showHidden == old(state.showHidden)
      ensures state.hiddenChannelIds == old(state.hiddenChannelIds)
    {
      ApplyFilters("", category, state.showHidden, state.hiddenChannelIds);
    }

    /** `unlockParental(pin)`: unlocks only when a PIN is stored and equals `pin`. */
    method UnlockParental(pin: string)
      modifies this
      ensures Settings.ParentalPin(settingsStore.prefs) == Some(pin) ==>
        state == old(state).(parentalUnlocked := true)
      ensures Settings.ParentalPin(settingsStore.prefs) != Some(pin) ==> state == old(state)
    {
      var stored := settingsStore.GetParentalPin();
      if stored.Some? && stored.value == pin {
        state := state.(parentalUnlocked := true);
      }
    }

    method LockParental()
      modifies this
      ensures state == old(state).(parentalUnlocked := false)
    {
      state := state.(parentalUnlocked := false);
    }

    /** `addPlaylistUrl(name, url)`; `id` and `now` stand for the random UUID and the clock. */
    method AddPlaylistUrl(name: Option<string>, url: string, id: string, now: int)
      modifies playlistStore
      ensures playlistStore.prefs == SavedPlaylists.WithNewPlaylist(old(playlistStore.prefs), NewEntry(name, url, id, now))
    {
      var entry := PlaylistEntry(id, PlaylistName(name), URL, url, now, None);
      playlistStore.SaveNewPlaylist(entry);
    }

    /** `addPlaylistXtream(name, baseUrl, username, password)`: a null name becomes `Xtream`, a
        blank one `Playlist`. */
    method AddPlaylistXtream(name: Option<string>, baseUrl: string, username: string, password: string,
                             id: string, now: int)
      modifies playlistStore
      ensures playlistStore.prefs == SavedPlaylists.WithNewPlaylist(old(playlistStore.prefs),
        NewEntry(Some(name.GetOr(DEFAULT_XTREAM_NAME)), XtreamUrl(baseUrl, username, password), id, now))
    {
      var formattedBase := if EndsWith(baseUrl, "/") then baseUrl[..|baseUrl| - 1] else baseUrl;
      var m3uUrl := formattedBase + "/get.php?username=" + username + "&password=" + password + "&type=m3u";
      AddPlaylistUrl(Some(name.GetOr(DEFAULT_XTREAM_NAME)), m3uUrl, id, now);
    }

    /** `resolveActivePlaylistUrl`. */
    function ResolveActivePlaylistUrl(): string
      reads this
    {
      ActivePlaylistUrl(state.playlists, state.activePlaylistId)
    }
  }
}
