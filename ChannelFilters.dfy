/** `filterChannels` and `filterCategoriesList`: the text, category and hidden-channel filters of
    the channel list. */
module ChannelFilters {
  import opened Wrappers
  import opened Text
  import opened Sequences
  import opened Model
  import opened Categories

  /** The token a null group-title matches; note the lower case, unlike `UNDEFINED_GROUP`. */
  const UNDEFINED_TOKEN: string := "undefined"
  /** The token a null country matches. */
  const UNKNOWN_TOKEN: string := "unknown"

  // ---------------------------------------------------------------------------------------------
  // The category step
  // ---------------------------------------------------------------------------------------------

  /** `pieces.map { it.trim().lowercase() }.filter { it.isNotEmpty() }`. */
  function LoweredPieces(pieces: seq<string>): seq<string> {
    if pieces == [] then []
    else
      var t := Lower(Trim(pieces[0]));
      var rest := LoweredPieces(pieces[1..]);
      if t == [] then rest else [t] + rest
  }

  /** `tokens.map { it.lowercase() }`. */
  function LowerAll(tokens: seq<string>): (r: seq<string>)
    ensures |r| == |tokens| && forall i :: 0 <= i < |tokens| ==> r[i] == Lower(tokens[i])
  {
    seq(|tokens|, i requires 0 <= i < |tokens| => Lower(tokens[i]))
  }

  /** The filter's tokens of a field are the category builder's trimmed tokens, lower-cased. */
  lemma {:induction false} LoweredPiecesAreLoweredTokens(pieces: seq<string>)
    ensures LoweredPieces(pieces) == LowerAll(TrimmedPieces(pieces))
  {
    if pieces != [] {
      LoweredPiecesAreLoweredTokens(pieces[1..]);
      var t := Trim(pieces[0]);
      if t != [] {
        assert LowerAll([t] + TrimmedPieces(pieces[1..])) == [Lower(t)] + LowerAll(TrimmedPieces(pieces[1..]));
      }
    }
  }

  /** The tokens `filterChannels` matches a category name against: the lower-cased trimmed
      non-empty pieces of the field, or `fallback` only when the field is null. */
  function FilterTokens(field: Option<string>, fallback: string): seq<string> {
    match field
    case None => [fallback]
    case Some(s) => LoweredPieces(Split(s))
  }

  /** Whether the category step keeps `ch` for the selected category `cat`. */
  predicate InCategory(ch: Channel, cat: CategoryItem) {
    match cat.categoryType
    case GROUP => Lower(cat.name) in FilterTokens(ch.groupTitle, UNDEFINED_TOKEN)
    case COUNTRY => Lower(cat.name) in FilterTokens(ch.country, UNKNOWN_TOKEN)
  }

  /** The field of `ch` that a category of type `t` is about. */
  function Facet(ch: Channel, t: CategoryType): Option<string> {
    if t == GROUP then ch.groupTitle else ch.country
  }

  /** A null field only matches the name `undefined` (groups) or `unknown` (countries), up to
      case. */
  lemma InCategoryNull(ch: Channel, cat: CategoryItem)
    requires Facet(ch, cat.categoryType).None?
    ensures InCategory(ch, cat) <==>
      Lower(cat.name) == (if cat.categoryType == GROUP then UNDEFINED_TOKEN else UNKNOWN_TOKEN)
  {
  }

  /** Some piece, trimmed, is non-empty and equals `name` once lower-cased. */
  predicate HasLoweredPiece(pieces: seq<string>, name: string) {
    exists k :: 0 <= k < |pieces| && Trim(pieces[k]) != [] && Lower(Trim(pieces[k])) == name
  }

  lemma LoweredPiecesSound(pieces: seq<string>, name: string)
    requires name in LoweredPieces(pieces)
    ensures HasLoweredPiece(pieces, name)
  {
    LoweredPiecesAreLoweredTokens(pieces);
    TrimmedPiecesMeaning(pieces);
    var tokens := TrimmedPieces(pieces);
    var i :| 0 <= i < |tokens| && LowerAll(tokens)[i] == name;
    var k :| 0 <= k < |pieces| && Trim(pieces[k]) == tokens[i];
    assert Trim(pieces[k]) != [] && Lower(Trim(pieces[k])) == name;
  }

  lemma LoweredPiecesComplete(pieces: seq<string>, name: string)
    requires HasLoweredPiece(pieces, name)
    ensures name in LoweredPieces(pieces)
  {
    LoweredPiecesAreLoweredTokens(pieces);
    TrimmedPiecesMeaning(pieces);
    var tokens := TrimmedPieces(pieces);
    var k :| 0 <= k < |pieces| && Trim(pieces[k]) != [] && Lower(Trim(pieces[k])) == name;
    var i :| 0 <= i < |tokens| && tokens[i] == Trim(pieces[k]);
    assert LowerAll(tokens)[i] == name;
  }

  /** A lower-cased name is one of the filter's tokens of `pieces` exactly when it is a trimmed
      non-empty piece, lower-cased. */
  lemma LoweredPiecesMember(pieces: seq<string>, name: string)
    ensures name in LoweredPieces(pieces) <==> HasLoweredPiece(pieces, name)
  {
    if name in LoweredPieces(pieces) {
      LoweredPiecesSound(pieces, name);
    }
    if HasLoweredPiece(pieces, name) {
      LoweredPiecesComplete(pieces, name);
    }
  }

  /** The category step is an exact, case-insensitive token match: a present field matches when one
      of its trimmed non-empty pieces equals the category name up to case. */
  lemma InCategoryPresent(ch: Channel, cat: CategoryItem)
    requires Facet(ch, cat.categoryType).Some?
    ensures InCategory(ch, cat) <==> HasLoweredPiece(Split(Facet(ch, cat.categoryType).value), Lower(cat.name))
  {
    if cat.categoryType == GROUP {
      LoweredPiecesMember(Split(ch.groupTitle.value), Lower(cat.name));
    } else {
      LoweredPiecesMember(Split(ch.country.value), Lower(cat.name));
    }
  }

  /** The builder's fallback names, lower-cased, are the filter's fallback tokens. */
  lemma LowerFallbacks()
    ensures Lower(UNDEFINED_GROUP) == UNDEFINED_TOKEN
    ensures Lower(UNKNOWN_COUNTRY) == UNKNOWN_TOKEN
  {
    assert forall i :: 0 <= i < |UNDEFINED_TOKEN| ==> Lower(UNDEFINED_GROUP)[i] == UNDEFINED_TOKEN[i];
    assert forall i :: 0 <= i < |UNKNOWN_TOKEN| ==> Lower(UNKNOWN_COUNTRY)[i] == UNKNOWN_TOKEN[i];
  }

  /** A channel counted under a category by the builder is kept when that category is selected,
      provided its field is null or has a non-blank piece. */
  lemma CountedChannelIsSelected(ch: Channel, cat: CategoryItem)
    requires cat.name in (if cat.categoryType == GROUP then GroupTokens(ch) else CountryTokens(ch))
    requires Facet(ch, cat.categoryType).Some? ==>
      exists k :: 0 <= k < |Split(Facet(ch, cat.categoryType).value)| && !IsBlank(Split(Facet(ch, cat.categoryType).value)[k])
    ensures InCategory(ch, cat)
  {
    var field := Facet(ch, cat.categoryType);
    var fallback := if cat.categoryType == GROUP then UNDEFINED_GROUP else UNKNOWN_COUNTRY;
    if field.Some? {
      var pieces := Split(field.value);
      InCategoryPresent(ch, cat);
      FacetTokensPieces(field.value, fallback, cat.name);
      var k :| 0 <= k < |pieces| && Trim(pieces[k]) == cat.name;
    } else {
      assert cat.name == fallback;
      LowerFallbacks();
    }
  }

  /** The builder counts a present group-title with no non-blank piece (`""`, `" ; "`) under
      `Undefined`, yet selecting that category drops the channel: the category step substitutes
      `undefined` only for a null field. */
  lemma BlankGroupNotSelectable(ch: Channel, count: int)
    requires ch.groupTitle.Some?
    requires forall k :: 0 <= k < |Split(ch.groupTitle.value)| ==> IsBlank(Split(ch.groupTitle.value)[k])
    ensures GroupTokens(ch) == [UNDEFINED_GROUP]
    ensures !InCategory(ch, CategoryItem(UNDEFINED_GROUP, GROUP, count))
  {
    FacetTokensFallback(ch.groupTitle, UNDEFINED_GROUP);
    TrimmedPiecesEmpty(Split(ch.groupTitle.value));
    LoweredPiecesAreLoweredTokens(Split(ch.groupTitle.value));
  }

  // ---------------------------------------------------------------------------------------------
  // The text step
  // ---------------------------------------------------------------------------------------------

  /** `field?.lowercase()?.contains(lower) ?: false`. */
  predicate FieldContains(field: Option<string>, lower: string) {
    field.Some? && Contains(Lower(field.value), lower)
  }

  /** Whether the text step keeps `ch` for the trimmed, lower-cased query `lower`. */
  predicate TextMatches(ch: Channel, lower: string) {
    Contains(Lower(ch.name), lower) || FieldContains(ch.groupTitle, lower) ||
    FieldContains(ch.country, lower) || FieldContains(ch.language, lower)
  }

  /** What a query is matched as: trimmed and lower-cased. */
  function QueryText(query: string): string {
    Lower(Trim(query))
  }

  function MatchesText(lower: string): Channel -> bool {
    (ch: Channel) => TextMatches(ch, lower)
  }

  function InCategoryOf(cat: CategoryItem): Channel -> bool {
    (ch: Channel) => InCategory(ch, cat)
  }

  function NotHidden(hiddenIds: set<string>): Channel -> bool {
    (ch: Channel) => ch.streamUrl !in hiddenIds
  }

  // ---------------------------------------------------------------------------------------------
  // filterChannels
  // ---------------------------------------------------------------------------------------------

  /** `filterChannels`: the text step (skipped for a blank query), then the category step (skipped
      without a selected category), then the hidden step (skipped when hidden channels are shown). */
  function FilterChannels(channels: seq<Channel>, query: string, category: Option<CategoryItem>,
                          showHidden: bool, hiddenIds: set<string>): seq<Channel>
  {
    var base := if IsBlank(query) then channels else Filter(channels, MatchesText(QueryText(query)));
    var catFiltered := match category
      case None => base
      case Some(cat) => Filter(base, InCategoryOf(cat));
    if showHidden then catFiltered else Filter(catFiltered, NotHidden(hiddenIds))
  }

  /** Whether a channel passes all three steps. */
  predicate Keeps(ch: Channel, query: string, category: Option<CategoryItem>, showHidden: bool,
                  hiddenIds: set<string>) {
    (IsBlank(query) || TextMatches(ch, QueryText(query))) &&
    (category.None? || InCategory(ch, category.value)) &&
    (showHidden || ch.streamUrl !in hiddenIds)
  }

  function KeepsOf(query: string, category: Option<CategoryItem>, showHidden: bool,
                   hiddenIds: set<string>): Channel -> bool {
    (ch: Channel) => Keeps(ch, query, category, showHidden, hiddenIds)
  }

  /** The three steps in a row are one filter by `Keeps`. */
  lemma FilterChannelsIsFilter(channels: seq<Channel>, query: string, category: Option<CategoryItem>,
                               showHidden: bool, hiddenIds: set<string>)
    ensures FilterChannels(channels, query, category, showHidden, hiddenIds) ==
      Filter(channels, KeepsOf(query, category, showHidden, hiddenIds))
  {
    var text: Channel -> bool := ch => IsBlank(query) || TextMatches(ch, QueryText(query));
    var textCat: Channel -> bool := ch => text(ch) && (category.None? || InCategory(ch, category.value));
    var base := if IsBlank(query) then channels else Filter(channels, MatchesText(QueryText(query)));
    if IsBlank(query) {
      assert Filter(channels, text) == channels;
    } else {
      FilterExtensional(channels, MatchesText(QueryText(query)), text);
    }
    assert base == Filter(channels, text);
    var catFiltered := match category
      case None => base
      case Some(cat) => Filter(base, InCategoryOf(cat));
    if category.None? {
      FilterExtensional(channels, text, textCat);
    } else {
      FilterFilter(channels, text, InCategoryOf(category.value), textCat);
    }
    assert catFiltered == Filter(channels, textCat);
    if showHidden {
      FilterExtensional(channels, textCat, KeepsOf(query, category, showHidden, hiddenIds));
    } else {
      FilterFilter(channels, textCat, NotHidden(hiddenIds), KeepsOf(query, category, showHidden, hiddenIds));
    }
  }

  /** The result is the input channels that pass every step, in their original order. */
  lemma FilterChannelsMeaning(channels: seq<Channel>, query: string, category: Option<CategoryItem>,
                              showHidden: bool, hiddenIds: set<string>)
    ensures var r := FilterChannels(channels, query, category, showHidden, hiddenIds);
      IsSubsequence(r, channels) &&
      (forall ch :: ch in r <==> ch in channels && Keeps(ch, query, category, showHidden, hiddenIds))
  {
    FilterChannelsIsFilter(channels, query, category, showHidden, hiddenIds);
    FilterSubsequence(channels, KeepsOf(query, category, showHidden, hiddenIds));
  }

  /** With hidden channels not shown, no hidden channel survives; showing them removes nothing. */
  lemma FilterChannelsHidden(channels: seq<Channel>, query: string, category: Option<CategoryItem>,
                             showHidden: bool, hiddenIds: set<string>)
    ensures !showHidden ==> forall ch :: ch in FilterChannels(channels, query, category, showHidden, hiddenIds) ==>
      ch.streamUrl !in hiddenIds
    ensures FilterChannels(channels, query, category, true, hiddenIds) == FilterChannels(channels, query, category, true, {})
  {
    FilterChannelsMeaning(channels, query, category, showHidden, hiddenIds);
  }

  /** With a blank query, no category and nothing hidden, every channel is listed. */
  lemma FilterChannelsIdentity(channels: seq<Channel>, query: string, showHidden: bool, hiddenIds: set<string>)
    requires IsBlank(query) && (showHidden || hiddenIds == {})
    ensures FilterChannels(channels, query, None, showHidden, hiddenIds) == channels
  {
    FilterChannelsIsFilter(channels, query, None, showHidden, hiddenIds);
  }

  /** Filtering the filtered list again with the same parameters changes nothing. */
  lemma FilterChannelsIdempotent(channels: seq<Channel>, query: string, category: Option<CategoryItem>,
                                 showHidden: bool, hiddenIds: set<string>)
    ensures var r := FilterChannels(channels, query, category, showHidden, hiddenIds);
      FilterChannels(r, query, category, showHidden, hiddenIds) == r
  {
    var r := FilterChannels(channels, query, category, showHidden, hiddenIds);
    FilterChannelsIsFilter(channels, query, category, showHidden, hiddenIds);
    FilterChannelsIsFilter(r, query, category, showHidden, hiddenIds);
    FilterIdempotent(channels, KeepsOf(query, category, showHidden, hiddenIds));
  }

  // ---------------------------------------------------------------------------------------------
  // filterCategoriesList
  // ---------------------------------------------------------------------------------------------

  function NameContains(lower: string): CategoryItem -> bool {
    (it: CategoryItem) => Contains(Lower(it.name), lower)
  }

  /** `filterCategoriesList`: every category for a blank query, otherwise those whose lower-cased
      name contains the trimmed, lower-cased query, in their order. */
  function FilterCategoriesList(categories: seq<CategoryItem>, query: string): (r: seq<CategoryItem>)
    ensures IsBlank(query) ==> r == categories
    ensures !IsBlank(query) ==>
      forall x :: x in r <==> x in categories && Contains(Lower(x.name), QueryText(query))
    ensures IsSubsequence(r, categories)
  {
    if IsBlank(query) then SubsequenceReflexive(categories); categories
    else FilterSubsequence(categories, NameContains(QueryText(query))); Filter(categories, NameContains(QueryText(query)))
  }
}
