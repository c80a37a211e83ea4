# nohaplayer core, modelled in Dafny

nohaplayer is an Android IPTV player. This project models the parts of it that decide what the
user sees and what is stored:

- the M3U playlist parser (`M3UParser`): a line-by-line state machine that pairs each
  `#EXTINF:` line with the next URL line and reads the `key="value"` attributes with a regular
  expression;
- the playlist fetch with fallback (`IPTVRepository.fetchChannels`): the requested URL, then
  the two built-in playlists, each tried once, the first that loads is parsed;
- the category list of the channel screen (`buildCategories`): GROUP and COUNTRY facets split
  on `;`, `,` and `|`, counted per token, sorted case-insensitively;
- the channel and category filters (`filterChannels`, `filterCategoriesList`);
- the view model's synchronous rules: recently played channels, the default playlist name, the
  Xtream Codes URL, the active playlist URL, the query/category clearing rule and the parental
  lock;
- the three DataStore-backed stores (favorites, settings, saved playlists), each as a class
  holding an in-memory preference map that its methods update.

Source files are Kotlin, under `app/src/main/java/com/noha/player/`. The Dafny modules are:

| file | models |
|---|---|
| `Wrappers.dfy` | `Option`, `Result` and map lookup |
| `Sequences.dfy` | `filter`, `take`, `distinct`, subsequences and counting on lists |
| `Text.dfy` | `trim`, `isBlank`, `lowercase`, `startsWith`, `contains`, `split(';', ',', '|')`, `lines()` |
| `Model.dfy` | `Channel`, `CategoryItem`/`CategoryType`, `PlaylistEntry`/`PlaylistType` |
| `M3UParser.dfy` | `data/parser/M3UParser.kt` |
| `IPTVRepository.dfy` | `data/repository/IPTVRepository.kt` |
| `Categories.dfy` | `buildCategories` of `ui/channel/ChannelListViewModel.kt` |
| `ChannelFilters.dfy` | `filterChannels` and `filterCategoriesList` of the same file |
| `ChannelList.dfy` | the rest of the view model that the core covers |
| `Preferences.dfy`, `Favorites.dfy`, `Settings.dfy`, `SavedPlaylists.dfy` | the stores under `data/local/` |

Where the code does something a reader might not expect, the model follows the code:

- `buildCategories` counts a present group-title that has no non-blank piece (`""`, `" ; "`)
  under `Undefined`, but `filterChannels` substitutes `undefined` only for a null group-title,
  so selecting `Undefined` does not list that channel (`ChannelFilters.BlankGroupNotSelectable`).
  The same holds for countries and `Unknown`.
- Tokens are counted per occurrence: a group-title `News;News` counts the channel twice under
  `News` (`Categories.RepeatedTokenCountsTwice`).
- `addPlaylistXtream` with a null name saves the playlist as `Xtream`, with a blank name as
  `Playlist`; the saved entry has type URL, not XTREAM.
- `fetchChannels` always has at least one candidate, so its `Failed to load playlist` message is
  never emitted (`IPTVRepository.FetchFailureHasCause`).
- `fetchChannels` is two steps: the candidate loop (`IPTVRepository.TryCandidates`), then the
  parse of the text it found. The source parses inside the loop, outside `runCatching`, and
  returns at once, so the order of effects is the same.
- `lastIndexOf(',')` is used for the channel name, so a comma inside an attribute value before
  the last comma does not matter, and a line ending in a comma falls back to `tvg-name`.

## Model

| member | source | states |
|---|---|---|
| M3UParser.MatchAt | app/src/main/java/com/noha/player/data/parser/M3UParser.kt:12-14 | a match anchored at a position reads `key="value"` with the key in `[a-zA-Z-]+` and a non-empty value without quotes |
| M3UParser.MatchAtComplete | app/src/main/java/com/noha/player/data/parser/M3UParser.kt:12-14 | wherever the text reads `key="value"` of that shape, the pattern matches there with exactly that key and value |
| M3UParser.FindFrom | app/src/main/java/com/noha/player/data/parser/M3UParser.kt:59-61 | `find()` returns a match starting at or after the search position |
| M3UParser.FindFromLeftmost | app/src/main/java/com/noha/player/data/parser/M3UParser.kt:59-61 | no match starts between the search position and the match `find()` returns |
| M3UParser.ParseAttributes | app/src/main/java/com/noha/player/data/parser/M3UParser.kt:57-70 | the `find()` loop fills the map with every successive match, later writes overwriting earlier ones |
| M3UParser.ToMapLastWins | app/src/main/java/com/noha/player/data/parser/M3UParser.kt:61-67 | a key is in the map iff some match had it, and its value is that of the last such match |
| M3UParser.AttributeMapProperties | app/src/main/java/com/noha/player/data/parser/M3UParser.kt:57-70 | every key is made of letters and `-`, every value is non-empty and quote-free, and is the value of the last match with that key |
| M3UParser.LastIndexOf | app/src/main/java/com/noha/player/data/parser/M3UParser.kt:78 | the index found holds the character and none after it does; no index means the character does not occur |
| M3UParser.ChannelName | app/src/main/java/com/noha/player/data/parser/M3UParser.kt:78-83 | the name is the trimmed text after the last comma, or `tvg-name` and then `Unknown Channel` when there is no comma or it ends the line |
| M3UParser.CreateChannel | app/src/main/java/com/noha/player/data/parser/M3UParser.kt:72-95 | each channel field is the like-named attribute, the stream URL is the URL line, and `tvgName` falls back to the name |
| M3UParser.CreatedNameNonEmpty | app/src/main/java/com/noha/player/data/parser/M3UParser.kt:78-83 | a channel made from a non-empty `#EXTINF:` line that does not end in whitespace (every trimmed line) never has an empty name |
| M3UParser.ExtInfMeaning | app/src/main/java/com/noha/player/data/parser/M3UParser.kt:28-36 | the header test before it never hides an `#EXTINF:` line |
| M3UParser.UrlMeaning | app/src/main/java/com/noha/player/data/parser/M3UParser.kt:37 | a URL line is exactly a non-empty trimmed line not starting with `#` |
| M3UParser.Parse | app/src/main/java/com/noha/player/data/parser/M3UParser.kt:16-55 | the loop over the lines with its mutable pending line and attributes returns what the state machine `Channels` returns |
| M3UParser.RunFromAppend | app/src/main/java/com/noha/player/data/parser/M3UParser.kt:23-52 | parsing two blocks of lines in a row is parsing the first and continuing from its state |
| M3UParser.ExtInfReplacesPending | app/src/main/java/com/noha/player/data/parser/M3UParser.kt:33-36 | an `#EXTINF:` line replaces the pending line and attributes and emits nothing |
| M3UParser.IgnoredLineChangesNothing | app/src/main/java/com/noha/player/data/parser/M3UParser.kt:26-31 | blank lines, the header and other `#` lines can be removed without changing the result |
| M3UParser.OrphanUrlDropped | app/src/main/java/com/noha/player/data/parser/M3UParser.kt:37-39 | a URL line with nothing pending is dropped and does not affect later lines |
| M3UParser.PairEmitsOneChannel | app/src/main/java/com/noha/player/data/parser/M3UParser.kt:37-50 | an `#EXTINF:` line followed by a URL line appends exactly the channel built from the two trimmed lines and clears the pending state |
| M3UParser.SecondUrlDropped | app/src/main/java/com/noha/player/data/parser/M3UParser.kt:47-49 | after a channel is emitted, a second URL line without a new `#EXTINF:` is dropped |
| M3UParser.ChannelCountBound | app/src/main/java/com/noha/player/data/parser/M3UParser.kt:16-55 | a playlist yields at most as many channels as it has `#EXTINF:` lines |
| M3UParser.StreamUrlsAreUrlLines | app/src/main/java/com/noha/player/data/parser/M3UParser.kt:37-45 | the stream URLs are trimmed URL lines of the playlist, in playlist order |
| M3UParser.ParsedNamesNonEmpty | app/src/main/java/com/noha/player/data/parser/M3UParser.kt:72-95 | no parsed channel has an empty name |
| IPTVRepository.CandidatesBlank | app/src/main/java/com/noha/player/data/repository/IPTVRepository.kt:18-27 | a blank URL tries the two built-in playlists, in order |
| IPTVRepository.CandidatesRequested | app/src/main/java/com/noha/player/data/repository/IPTVRepository.kt:18-27 | any other URL is tried first, then the built-in playlists that differ from it, each once |
| IPTVRepository.CandidatesNonEmpty | app/src/main/java/com/noha/player/data/repository/IPTVRepository.kt:26-27 | there is always at least one candidate |
| IPTVRepository.LoadRoutes | app/src/main/java/com/noha/player/data/repository/IPTVRepository.kt:28-37 | an `http` candidate, in any case, goes to the network; any other to the content reader, where a missing stream fails with `Unable to open playlist` |
| IPTVRepository.TryCandidates | app/src/main/java/com/noha/player/data/repository/IPTVRepository.kt:27-45 | the loop returns the first candidate text that loads (or the last error), tries a non-empty prefix of the candidates in order, every attempt but the last failed, it succeeds iff the last attempt loaded, and a failure has tried every candidate |
| IPTVRepository.FirstLoadedSucceedsIff | app/src/main/java/com/noha/player/data/repository/IPTVRepository.kt:27-45 | walking a candidate list yields text exactly when some candidate loads |
| IPTVRepository.FirstLoadedIsFirst | app/src/main/java/com/noha/player/data/repository/IPTVRepository.kt:38-41 | the text is that of the first candidate that loads, whatever failed before it |
| IPTVRepository.FirstLoadedLastError | app/src/main/java/com/noha/player/data/repository/IPTVRepository.kt:43-46 | when every candidate fails, the failure carries the last candidate's error |
| IPTVRepository.FetchChannels | app/src/main/java/com/noha/player/data/repository/IPTVRepository.kt:24-47 | the fetch returns what `Fetch` returns (the parse of the first text that loads, or the last error), tries a non-empty prefix of the candidates in order, every attempt but the last failed, it succeeds iff the last attempt loaded, and a failure has tried every candidate |
| IPTVRepository.FetchSucceedsIff | app/src/main/java/com/noha/player/data/repository/IPTVRepository.kt:27-45 | the fetch succeeds exactly when some candidate loads |
| IPTVRepository.FetchFirstSuccess | app/src/main/java/com/noha/player/data/repository/IPTVRepository.kt:38-41 | the channels are the parse of the text of the first candidate that loads |
| IPTVRepository.FetchFailureHasCause | app/src/main/java/com/noha/player/data/repository/IPTVRepository.kt:46 | a failed fetch always reports the last candidate's error, never the built-in message |
| Categories.TrimmedPiecesMeaning | app/src/main/java/com/noha/player/ui/channel/ChannelListViewModel.kt:339-342 | the tokens are exactly the non-empty trimmed pieces |
| Categories.FacetTokensFallback | app/src/main/java/com/noha/player/ui/channel/ChannelListViewModel.kt:339-351 | a null field, or one whose pieces are all blank, counts once, under `Undefined` or `Unknown` |
| Categories.FacetTokensPieces | app/src/main/java/com/noha/player/ui/channel/ChannelListViewModel.kt:339-351 | a field with a non-blank piece counts exactly its trimmed non-empty pieces |
| Categories.TallyKeys | app/src/main/java/com/noha/player/ui/channel/ChannelListViewModel.kt:353-354 | the count map's keys are the tokens in order of first occurrence |
| Categories.TallyLookup | app/src/main/java/com/noha/player/ui/channel/ChannelListViewModel.kt:353-354 | a token's count is the number of times it occurs; a non-token has no entry |
| Categories.SortPermutes | app/src/main/java/com/noha/player/ui/channel/ChannelListViewModel.kt:358 | sorting is a permutation |
| Categories.SortSorted | app/src/main/java/com/noha/player/ui/channel/ChannelListViewModel.kt:358 | the sorted list is ordered by lower-cased name |
| Categories.SortStable | app/src/main/java/com/noha/player/ui/channel/ChannelListViewModel.kt:358 | items with equal lower-cased names keep their relative order |
| Categories.BuildCategories | app/src/main/java/com/noha/player/ui/channel/ChannelListViewModel.kt:335-359 | the loop over the channels with two count maps returns the specification `Categories` |
| Categories.CountTokens | app/src/main/java/com/noha/player/ui/channel/ChannelListViewModel.kt:353-354 | the inner `forEach` counts each token of one channel once more |
| Categories.ItemsMeaning | app/src/main/java/com/noha/player/ui/channel/ChannelListViewModel.kt:356-357 | an item of one type is in the list iff its name is a token and its count is that token's number of occurrences |
| Categories.CategoriesMeaning | app/src/main/java/com/noha/player/ui/channel/ChannelListViewModel.kt:335-359 | an item is listed iff its name is a token of its type across all channels and its count is that token's number of occurrences; every count is at least 1 |
| Categories.CategoriesUnique | app/src/main/java/com/noha/player/ui/channel/ChannelListViewModel.kt:353-358 | there is one item per name and type |
| Categories.CategoriesOrdered | app/src/main/java/com/noha/player/ui/channel/ChannelListViewModel.kt:356-358 | the list is sorted by lower-cased name, and ties keep first-occurrence order with groups before countries |
| Categories.RepeatedTokenCountsTwice | app/src/main/java/com/noha/player/ui/channel/ChannelListViewModel.kt:338-353 | a group-title `News;News` yields the item `News` with count 2 for one channel |
| ChannelFilters.LoweredPiecesAreLoweredTokens | app/src/main/java/com/noha/player/ui/channel/ChannelListViewModel.kt:387-390 | the filter's tokens of a field are the builder's tokens lower-cased |
| ChannelFilters.InCategoryNull | app/src/main/java/com/noha/player/ui/channel/ChannelListViewModel.kt:387-402 | a null field matches only the category named `undefined` or `unknown`, up to case |
| ChannelFilters.InCategoryPresent | app/src/main/java/com/noha/player/ui/channel/ChannelListViewModel.kt:383-406 | a present field matches iff one of its trimmed non-empty pieces equals the category name up to case |
| ChannelFilters.LowerFallbacks | app/src/main/java/com/noha/player/ui/channel/ChannelListViewModel.kt:343-402 | the builder's `Undefined` and `Unknown` lower-case to the filter's `undefined` and `unknown` |
| ChannelFilters.CountedChannelIsSelected | app/src/main/java/com/noha/player/ui/channel/ChannelListViewModel.kt:335-406 | a channel counted under a category is listed when that category is selected, if its field is null or has a non-blank piece |
| ChannelFilters.BlankGroupNotSelectable | app/src/main/java/com/noha/player/ui/channel/ChannelListViewModel.kt:339-393 | a present group-title with only blank pieces is counted under `Undefined`, yet selecting `Undefined` drops the channel |
| ChannelFilters.FilterChannelsIsFilter | app/src/main/java/com/noha/player/ui/channel/ChannelListViewModel.kt:367-408 | the three steps in a row are one filter that keeps the channels passing the text, category and hidden tests |
| ChannelFilters.FilterChannelsMeaning | app/src/main/java/com/noha/player/ui/channel/ChannelListViewModel.kt:367-408 | the result is in input order and holds exactly the input channels that pass all three tests |
| ChannelFilters.FilterChannelsHidden | app/src/main/java/com/noha/player/ui/channel/ChannelListViewModel.kt:407 | without showing hidden channels none survives; when they are shown the hidden set makes no difference |
| ChannelFilters.FilterChannelsIdentity | app/src/main/java/com/noha/player/ui/channel/ChannelListViewModel.kt:374-407 | a blank query, no category and nothing hidden list every channel |
| ChannelFilters.FilterChannelsIdempotent | app/src/main/java/com/noha/player/ui/channel/ChannelListViewModel.kt:367-408 | filtering the result again with the same settings changes nothing |
| ChannelFilters.FilterCategoriesList | app/src/main/java/com/noha/player/ui/channel/ChannelListViewModel.kt:361-365 | a blank query keeps every category; otherwise a category is kept iff its lower-cased name contains the trimmed lower-cased query; order is kept |
| ChannelList.RecentsAfterPlay | app/src/main/java/com/noha/player/ui/channel/ChannelListViewModel.kt:128-129 | the played channel comes first, no other entry has its stream URL, at most ten entries, and the rest are the older entries with other URLs in order |
| ChannelList.RecentsKeepOrder | app/src/main/java/com/noha/player/ui/channel/ChannelListViewModel.kt:128-129 | the kept older recents are a subsequence of the old recents |
| ChannelList.RecentsStayUnique | app/src/main/java/com/noha/player/ui/channel/ChannelListViewModel.kt:128-129 | playing a channel keeps the recents free of repeated stream URLs |
| ChannelList.RecentsReplayIdempotent | app/src/main/java/com/noha/player/ui/channel/ChannelListViewModel.kt:128-129 | playing the same channel twice in a row is playing it once |
| ChannelList.PlaylistName | app/src/main/java/com/noha/player/ui/channel/ChannelListViewModel.kt:170 | a non-blank name is kept, a null or blank one becomes `Playlist`; the result is never blank |
| ChannelList.NewEntry | app/src/main/java/com/noha/player/ui/channel/ChannelListViewModel.kt:168-174 | the saved entry has the given id, URL and time, type URL, no last-used time, and a non-blank name |
| ChannelList.FormattedBase | app/src/main/java/com/noha/player/ui/channel/ChannelListViewModel.kt:181 | exactly one trailing `/` is dropped, if there is one |
| ChannelList.XtreamUrlParts | app/src/main/java/com/noha/player/ui/channel/ChannelListViewModel.kt:181-182 | the Xtream URL is the formatted base, `/get.php?username=`, the user name, `&password=`, the password and `&type=m3u`, in order |
| ChannelList.FirstWithId | app/src/main/java/com/noha/player/ui/channel/ChannelListViewModel.kt:280 | a found entry is a saved playlist with the active id; none found means no playlist has it (a null id matches none) |
| ChannelList.FirstWithIdIsFirst | app/src/main/java/com/noha/player/ui/channel/ChannelListViewModel.kt:280 | the entry found is the first one with the active id |
| ChannelList.ActivePlaylistUrl | app/src/main/java/com/noha/player/ui/channel/ChannelListViewModel.kt:278-282 | without a saved playlist carrying the active id, the URL is the first built-in playlist |
| ChannelList.ActivePlaylistUrlFirstMatch | app/src/main/java/com/noha/player/ui/channel/ChannelListViewModel.kt:278-282 | with one, the URL is that of the first saved playlist carrying the active id |
| ChannelList.ChannelListViewModel.constructor | app/src/main/java/com/noha/player/ui/channel/ChannelListViewModel.kt:23-49 | the initial state is empty, with the filtered lists agreeing with it |
| ChannelList.ChannelListViewModel.OnChannelPlayed | app/src/main/java/com/noha/player/ui/channel/ChannelListViewModel.kt:123-131 | the recents are updated and nothing else in the state; the active playlist, if any, is marked used; the channel is stored as last played |
| ChannelList.ChannelListViewModel.ApplyFilters | app/src/main/java/com/noha/player/ui/channel/ChannelListViewModel.kt:410-427 | the categories are built only when empty; the query, category, show-hidden switch and both filtered lists are set; nothing else changes |
| ChannelList.ChannelListViewModel.OnQueryChange | app/src/main/java/com/noha/player/ui/channel/ChannelListViewModel.kt:133-136 | a new query clears the selected category and the filtered lists agree with the new state |
| ChannelList.ChannelListViewModel.SelectCategory | app/src/main/java/com/noha/player/ui/channel/ChannelListViewModel.kt:162-165 | selecting a category clears the query and the filtered lists agree with the new state |
| ChannelList.ChannelListViewModel.UnlockParental | app/src/main/java/com/noha/player/ui/channel/ChannelListViewModel.kt:226-233 | the state unlocks iff a PIN is stored and equals the one entered; otherwise it is unchanged |
| ChannelList.ChannelListViewModel.LockParental | app/src/main/java/com/noha/player/ui/channel/ChannelListViewModel.kt:235-237 | locking changes only the unlocked flag |
| ChannelList.ChannelListViewModel.AddPlaylistUrl | app/src/main/java/com/noha/player/ui/channel/ChannelListViewModel.kt:167-178 | the new entry is appended to the saved playlists and becomes active |
| ChannelList.ChannelListViewModel.AddPlaylistXtream | app/src/main/java/com/noha/player/ui/channel/ChannelListViewModel.kt:180-184 | the entry saved has the Xtream URL and the name, `Xtream` when null |
| Preferences.Flag | app/src/main/java/com/noha/player/data/local/SettingsStore.kt:25-31 | a switch reads on exactly when stored as true |
| Preferences.StringSet | app/src/main/java/com/noha/player/data/local/SettingsStore.kt:30 | an unset string-set key reads as the empty set |
| Favorites.Toggle | app/src/main/java/com/noha/player/data/local/FavoritesStore.kt:33-37 | the id flips membership, every other id keeps it, and no other key changes |
| Favorites.Replace | app/src/main/java/com/noha/player/data/local/FavoritesStore.kt:27-30 | the favorites become the given set and no other key changes |
| Favorites.ToggleTwice | app/src/main/java/com/noha/player/data/local/FavoritesStore.kt:33-37 | toggling an id twice restores the favorites |
| Favorites.FavoritesStore.constructor | app/src/main/java/com/noha/player/data/local/FavoritesStore.kt:23-25 | a new store has no favorites |
| Favorites.FavoritesStore.SetFavorites | app/src/main/java/com/noha/player/data/local/FavoritesStore.kt:27-30 | the preferences become `Replace` of the old ones |
| Favorites.FavoritesStore.ToggleFavorite | app/src/main/java/com/noha/player/data/local/FavoritesStore.kt:33-37 | the preferences become `Toggle` of the old ones |
| Settings.LastPlayedOf | app/src/main/java/com/noha/player/data/local/SettingsStore.kt:33-38 | the last played channel exists iff its URL and name are stored; its logo iff the logo is stored |
| Settings.Defaults | app/src/main/java/com/noha/player/data/local/SettingsStore.kt:25-38 | a fresh store reads every switch off, nothing hidden, no PIN and nothing last played |
| Settings.WithFlag | app/src/main/java/com/noha/player/data/local/SettingsStore.kt:40-58 | the switch reads back as written and every other switch and key is unchanged |
| Settings.WithLastPlayed | app/src/main/java/com/noha/player/data/local/SettingsStore.kt:48-54 | the last played channel reads back as written, a null logo included, and no other key changes |
| Settings.WithParental | app/src/main/java/com/noha/player/data/local/SettingsStore.kt:60-69 | the switch and the PIN read back as written, a null PIN as none, and no other key changes |
| Settings.WithHidden | app/src/main/java/com/noha/player/data/local/SettingsStore.kt:77-82 | the hidden set gains the URL and no other key changes |
| Settings.HideIdempotent | app/src/main/java/com/noha/player/data/local/SettingsStore.kt:77-82 | hiding a channel twice is hiding it once |
| Settings.WithNoneHidden | app/src/main/java/com/noha/player/data/local/SettingsStore.kt:84-86 | the hidden set becomes empty and no other key changes |
| Settings.SettingsStore.constructor | app/src/main/java/com/noha/player/data/local/SettingsStore.kt:16-23 | a new store holds no preference |
| Settings.SettingsStore.SetAutoplayLast | app/src/main/java/com/noha/player/data/local/SettingsStore.kt:40-42 | the preferences become `WithFlag` for `autoplay_last` |
| Settings.SettingsStore.SetUseExternalPlayer | app/src/main/java/com/noha/player/data/local/SettingsStore.kt:44-46 | the preferences become `WithFlag` for `use_external_player` |
| Settings.SettingsStore.SetLastPlayed | app/src/main/java/com/noha/player/data/local/SettingsStore.kt:48-54 | the preferences become `WithLastPlayed` of the old ones |
| Settings.SettingsStore.SetStartOnBoot | app/src/main/java/com/noha/player/data/local/SettingsStore.kt:56-58 | the preferences become `WithFlag` for `start_on_boot` |
| Settings.SettingsStore.SetParental | app/src/main/java/com/noha/player/data/local/SettingsStore.kt:60-69 | the preferences become `WithParental` of the old ones |
| Settings.SettingsStore.GetParentalPin | app/src/main/java/com/noha/player/data/local/SettingsStore.kt:71 | the PIN returned is the stored one, present iff its key is set |
| Settings.SettingsStore.SetShowHidden | app/src/main/java/com/noha/player/data/local/SettingsStore.kt:73-75 | the preferences become `WithFlag` for `show_hidden_channels` |
| Settings.SettingsStore.HideChannel | app/src/main/java/com/noha/player/data/local/SettingsStore.kt:77-82 | the preferences become `WithHidden` of the old ones |
| Settings.SettingsStore.UnhideAll | app/src/main/java/com/noha/player/data/local/SettingsStore.kt:84-86 | the preferences become `WithNoneHidden` of the old ones |
| Settings.SettingsStore.AcceptDisclaimer | app/src/main/java/com/noha/player/data/local/SettingsStore.kt:88-90 | the preferences become `WithFlag` for `disclaimer_accepted`, set to true |
| SavedPlaylists.Decode | app/src/main/java/com/noha/player/data/local/PlaylistStore.kt:62-65 | a null, blank or undecodable text is the empty list; an encoded list is that list |
| SavedPlaylists.Touched | app/src/main/java/com/noha/player/data/local/PlaylistStore.kt:55-57 | the list keeps its length; entries with the id get the new last-used time and nothing else changes; other entries are unchanged |
| SavedPlaylists.TouchedIdempotent | app/src/main/java/com/noha/player/data/local/PlaylistStore.kt:55-57 | marking the same playlist used at the same time twice is marking it once |
| SavedPlaylists.TouchedKeepsIds | app/src/main/java/com/noha/player/data/local/PlaylistStore.kt:55-57 | every position keeps its id |
| SavedPlaylists.WithNewPlaylist | app/src/main/java/com/noha/player/data/local/PlaylistStore.kt:39-45 | the entry is appended to the decoded list and becomes active; no other key changes |
| SavedPlaylists.WithActive | app/src/main/java/com/noha/player/data/local/PlaylistStore.kt:47-51 | the active id reads back as written, a null id as none; no other key changes |
| SavedPlaylists.WithLastUsed | app/src/main/java/com/noha/player/data/local/PlaylistStore.kt:53-60 | the saved list becomes `Touched` of the decoded list; no other key changes |
| SavedPlaylists.PlaylistStore.constructor | app/src/main/java/com/noha/player/data/local/PlaylistStore.kt:18-27 | a new store has no playlists and no active id |
| SavedPlaylists.PlaylistStore.SaveNewPlaylist | app/src/main/java/com/noha/player/data/local/PlaylistStore.kt:39-45 | the preferences become `WithNewPlaylist` of the old ones |
| SavedPlaylists.PlaylistStore.SetActivePlaylist | app/src/main/java/com/noha/player/data/local/PlaylistStore.kt:47-51 | the preferences become `WithActive` of the old ones |
| SavedPlaylists.PlaylistStore.UpdateLastUsed | app/src/main/java/com/noha/player/data/local/PlaylistStore.kt:53-60 | the preferences become `WithLastUsed` of the old ones |
| Text.TrimBlank | app/src/main/java/com/noha/player/ui/channel/ChannelListViewModel.kt:362-363 | trimming leaves nothing exactly when the text is blank |
| Text.TrimIdempotent | app/src/main/java/com/noha/player/data/parser/M3UParser.kt:24 | trimming a trimmed line changes nothing |

## Left out

- Coroutines, `Flow` and `StateFlow`: each store edit and each state update is one atomic step;
  the order in which a launched coroutine and the synchronous update of `onChannelPlayed`
  complete is not modelled.
- `loadChannels`, `retry`, `setActivePlaylist` of the view model and the `observe*` collectors:
  they wire flows to state fields; `favoriteChannels`, `recentPlaylists` (sorted by last use),
  `isLoading`, `error`, the expanded flags and the mirrored settings switches are not fields of
  the modelled state.
- `onSearchClick`, `toggleFavorite`, `disableParental`, `acceptDisclaimer` and the other
  one-line setters of the view model: each forwards to an operation that is modelled.
- The HTTP client (`IPTVService`) and the Android content resolver: parameters of the fetch;
  their exceptions are modelled by their messages.
- The JSON encoding of saved playlists: a stored text is modelled by what decoding it yields
  (blank, undecodable, or a list), and `encodeToString` by the list.
- DataStore files, their durability and the store names: each store holds its preferences in
  memory.
- `UUID.randomUUID()` and `System.currentTimeMillis()`: parameters.
- `Long` and `Int` widths: times and counts are unbounded integers.
- `EXTINF_PATTERN` of the parser: declared but never used.
- The UI files, `BootReceiver`, `PlayerActivity`, the dependency-injection module and the
  `Playlist` model: not part of this model.
- Text.Lower: lower-cases ASCII letters only, not the full Unicode `lowercase()`.
- ChannelList.ActivePlaylistUrl: its own contract states the fallback only; the URL of a found
  playlist is stated by ChannelList.ActivePlaylistUrlFirstMatch.
