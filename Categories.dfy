/** `buildCategories`: the GROUP and COUNTRY facets of a channel list, with the number of channel
    tokens that carry each facet value, sorted case-insensitively by name. */
module Categories {
  import opened Wrappers
  import opened Text
  import opened Sequences
  import opened Model

  const UNDEFINED_GROUP: string := "Undefined"
  const UNKNOWN_COUNTRY: string := "Unknown"

  // ---------------------------------------------------------------------------------------------
  // Tokens of a group-title or country field
  // ---------------------------------------------------------------------------------------------

  /** `pieces.map { it.trim() }.filter { it.isNotEmpty() }`. */
  function TrimmedPieces(pieces: seq<string>): seq<string> {
    if pieces == [] then []
    else
      var t := Trim(pieces[0]);
      var rest := TrimmedPieces(pieces[1..]);
      if t == [] then rest else [t] + rest
  }

  /** The tokens are exactly the non-empty trimmed pieces. */
  lemma {:induction false} TrimmedPiecesMeaning(pieces: seq<string>)
    ensures forall i :: 0 <= i < |TrimmedPieces(pieces)| ==>
      TrimmedPieces(pieces)[i] != [] && exists k :: 0 <= k < |pieces| && Trim(pieces[k]) == TrimmedPieces(pieces)[i]
    ensures forall k :: 0 <= k < |pieces| && Trim(pieces[k]) != [] ==> Trim(pieces[k]) in TrimmedPieces(pieces)
  {
    if pieces != [] {
      var r := TrimmedPieces(pieces);
      var rest := TrimmedPieces(pieces[1..]);
      var t := Trim(pieces[0]);
      TrimmedPiecesMeaning(pieces[1..]);
      forall i | 0 <= i < |r|
        ensures r[i] != [] && exists k :: 0 <= k < |pieces| && Trim(pieces[k]) == r[i]
      {
        if t != [] && i == 0 {
          assert Trim(pieces[0]) == r[0];
        } else {
          var j := if t == [] then i else i - 1;
          assert r[i] == rest[j];
          var k :| 0 <= k < |pieces[1..]| && Trim(pieces[1..][k]) == rest[j];
          assert Trim(pieces[k + 1]) == r[i];
        }
      }
      forall k | 0 <= k < |pieces| && Trim(pieces[k]) != [] ensures Trim(pieces[k]) in r {
        if k > 0 {
          assert pieces[k] == pieces[1..][k - 1];
        }
      }
    }
  }

  /** The tokens `buildCategories` counts for one field: the trimmed, non-empty pieces between
      `;`, `,` and `|`, or just `fallback` when the field is null or has no such piece. */
  function FacetTokens(field: Option<string>, fallback: string): (r: seq<string>)
    ensures r != []
    ensures field.None? ==> r == [fallback]
  {
    match field
    case None => [fallback]
    case Some(s) =>
      var tokens := TrimmedPieces(Split(s));
      if tokens == [] then [fallback] else tokens
  }

  /** The pieces yield no token exactly when every piece is blank. */
  lemma {:induction false} TrimmedPiecesEmpty(pieces: seq<string>)
    ensures TrimmedPieces(pieces) == [] <==> forall k :: 0 <= k < |pieces| ==> IsBlank(pieces[k])
  {
    if pieces != [] {
      TrimmedPiecesEmpty(pieces[1..]);
      TrimBlank(pieces[0]);
      assert forall k :: 1 <= k < |pieces| ==> pieces[k] == pieces[1..][k - 1];
    }
  }

  /** A null field, or one whose pieces are all blank, counts exactly once, under `fallback`. */
  lemma FacetTokensFallback(field: Option<string>, fallback: string)
    requires field.Some? ==> forall k :: 0 <= k < |Split(field.value)| ==> IsBlank(Split(field.value)[k])
    ensures FacetTokens(field, fallback) == [fallback]
  {
    if field.Some? {
      TrimmedPiecesEmpty(Split(field.value));
    }
  }

  /** A field with a non-blank piece counts its trimmed non-empty pieces and nothing else. */
  lemma FacetTokensPieces(s: string, fallback: string, t: string)
    requires exists k :: 0 <= k < |Split(s)| && !IsBlank(Split(s)[k])
    ensures t in FacetTokens(Some(s), fallback) <==> t != [] && exists k :: 0 <= k < |Split(s)| && Trim(Split(s)[k]) == t
  {
    TrimmedPiecesEmpty(Split(s));
    TrimmedPiecesMeaning(Split(s));
  }

  /** The group tokens of a channel. */
  function GroupTokens(ch: Channel): seq<string> {
    FacetTokens(ch.groupTitle, UNDEFINED_GROUP)
  }

  /** The country tokens of a channel. */
  function CountryTokens(ch: Channel): seq<string> {
    FacetTokens(ch.country, UNKNOWN_COUNTRY)
  }

  /** The tokens of a facet over a channel list, channel after channel. */
  function TokensOf(channels: seq<Channel>, t: CategoryType): seq<string> {
    if channels == [] then []
    else
      var ch := channels[|channels| - 1];
      TokensOf(channels[..|channels| - 1], t) + (if t == GROUP then GroupTokens(ch) else CountryTokens(ch))
  }

  lemma TokensOfSnoc(channels: seq<Channel>, i: nat, t: CategoryType)
    requires i < |channels|
    ensures TokensOf(channels[..i + 1], t) ==
      TokensOf(channels[..i], t) + (if t == GROUP then GroupTokens(channels[i]) else CountryTokens(channels[i]))
  {
    assert channels[..i + 1][..i] == channels[..i];
  }

  // ---------------------------------------------------------------------------------------------
  // An insertion-ordered count map (`mutableMapOf<String, Int>()`, a `LinkedHashMap`)
  // ---------------------------------------------------------------------------------------------

  datatype Entry<K> = Entry(key: K, count: int)

  /** The entries of a `LinkedHashMap` from strings, in insertion order. */
  type Counts = seq<Entry<string>>

  /** The keys of the map, in insertion order. */
  function Keys<K>(c: seq<Entry<K>>): (r: seq<K>)
    ensures |r| == |c|
  {
    if c == [] then [] else [c[0].key] + Keys(c[1..])
  }

  /** `counts[key]`: the count stored under `key`, `None` for null. */
  function Lookup<K(==)>(c: seq<Entry<K>>, key: K): Option<int> {
    if c == [] then None
    else if c[0].key == key then Some(c[0].count)
    else Lookup(c[1..], key)
  }

  /** `counts[key] = value`: overwrites the entry in place, or appends a new one. */
  function Put<K(==)>(c: seq<Entry<K>>, key: K, value: int): seq<Entry<K>> {
    if c == [] then [Entry(key, value)]
    else if c[0].key == key then [Entry(key, value)] + c[1..]
    else [c[0]] + Put(c[1..], key, value)
  }

  /** A key reads as null exactly when it is not a key of the map. */
  lemma {:induction false} LookupKeys<K>(c: seq<Entry<K>>, key: K)
    ensures Lookup(c, key).None? <==> key !in Keys(c)
  {
    if c != [] {
      LookupKeys(c[1..], key);
    }
  }

  /** Writing a key keeps the position of an existing key and appends a new one. */
  lemma {:induction false} PutKeys<K>(c: seq<Entry<K>>, key: K, value: int)
    ensures Keys(Put(c, key, value)) == if key in Keys(c) then Keys(c) else Keys(c) + [key]
  {
    if c != [] && c[0].key != key {
      PutKeys(c[1..], key, value);
      assert Keys(c) == [c[0].key] + Keys(c[1..]);
    }
  }

  /** Writing a key makes it read back the written value and leaves every other key alone. */
  lemma {:induction false} PutLookup<K>(c: seq<Entry<K>>, key: K, value: int, other: K)
    ensures Lookup(Put(c, key, value), key) == Some(value)
    ensures other != key ==> Lookup(Put(c, key, value), other) == Lookup(c, other)
  {
    if c != [] && c[0].key != key {
      PutLookup(c[1..], key, value, other);
    }
  }

  /** One `counts[g] = (counts[g] ?: 0) + 1`. */
  function Bump<K(==)>(c: seq<Entry<K>>, key: K): seq<Entry<K>> {
    Put(c, key, Lookup(c, key).GetOr(0) + 1)
  }

  /** The count map after bumping every token in order. */
  function Tally<K(==)>(tokens: seq<K>): seq<Entry<K>> {
    if tokens == [] then [] else Bump(Tally(tokens[..|tokens| - 1]), tokens[|tokens| - 1])
  }

  lemma TallySnoc<K>(tokens: seq<K>, t: K)
    ensures Tally(tokens + [t]) == Bump(Tally(tokens), t)
  {
    assert (tokens + [t])[..|tokens|] == tokens;
  }

  /** The count map holds one entry per distinct token, in order of first occurrence. */
  lemma {:induction false} TallyKeys<K>(tokens: seq<K>)
    ensures Keys(Tally(tokens)) == Distinct(tokens)
  {
    if tokens != [] {
      var init := tokens[..|tokens| - 1];
      var t := tokens[|tokens| - 1];
      var c := Tally(init);
      assert Tally(tokens) == Put(c, t, Lookup(c, t).GetOr(0) + 1);
      assert tokens == init + [t];
      TallyKeys(init);
      DistinctMembers(init, t);
      DistinctSnoc(init, t);
      PutKeys(c, t, Lookup(c, t).GetOr(0) + 1);
    }
  }

  /** Each entry of the count map counts every occurrence of its token. */
  lemma {:induction false} TallyLookup<K>(tokens: seq<K>, key: K)
    ensures Lookup(Tally(tokens), key) == if key in tokens then Some(Count(tokens, key)) else None
  {
    if tokens != [] {
      var init := tokens[..|tokens| - 1];
      var t := tokens[|tokens| - 1];
      assert tokens == init + [t];
      TallyLookup(init, key);
      TallyLookup(init, t);
      PutLookup(Tally(init), t, Lookup(Tally(init), t).GetOr(0) + 1, key);
      CountAppend(init, [t], key);
      CountAppend(init, [t], t);
    }
  }

  lemma {:induction false} KeysAt<K>(c: seq<Entry<K>>, i: nat)
    requires i < |c|
    ensures Keys(c)[i] == c[i].key
  {
    if i > 0 {
      KeysAt(c[1..], i - 1);
    }
  }

  /** In a map with distinct keys, every entry is what its key reads back. */
  lemma {:induction false} LookupAt<K>(c: seq<Entry<K>>, i: nat)
    requires i < |c| && NoDuplicates(Keys(c))
    ensures Lookup(c, c[i].key) == Some(c[i].count)
  {
    if i > 0 {
      KeysAt(c, 0);
      KeysAt(c, i);
      assert Keys(c)[0] != Keys(c)[i];
      assert Keys(c[1..]) == Keys(c)[1..];
      LookupAt(c[1..], i - 1);
    }
  }

  /** `counts.map { CategoryItem(it.key, type, it.value) }`. */
  function Items(c: Counts, t: CategoryType): (r: seq<CategoryItem>)
    ensures |r| == |c| && forall i :: 0 <= i < |c| ==> r[i] == CategoryItem(c[i].key, t, c[i].count)
  {
    seq(|c|, i requires 0 <= i < |c| => CategoryItem(c[i].key, t, c[i].count))
  }

  // ---------------------------------------------------------------------------------------------
  // `sortedBy { it.name.lowercase() }`: a stable sort by a string key
  // ---------------------------------------------------------------------------------------------

  /** `String.compareTo`: lexicographic order, a proper prefix first. */
  predicate StrLe(a: string, b: string) {
    a == [] || (b != [] && (a[0] < b[0] || (a[0] == b[0] && StrLe(a[1..], b[1..]))))
  }

  lemma {:induction false} StrLeTotal(a: string, b: string)
    ensures StrLe(a, b) || StrLe(b, a)
  {
    if a != [] && b != [] && a[0] == b[0] {
      StrLeTotal(a[1..], b[1..]);
    }
  }

  lemma {:induction false} StrLeReflexive(a: string)
    ensures StrLe(a, a)
  {
    if a != [] {
      StrLeReflexive(a[1..]);
    }
  }

  lemma {:induction false} StrLeTrans(a: string, b: string, c: string)
    requires StrLe(a, b) && StrLe(b, c)
    ensures StrLe(a, c)
  {
    if a != [] && b != [] && c != [] && a[0] == b[0] && b[0] == c[0] {
      StrLeTrans(a[1..], b[1..], c[1..]);
    }
  }

  lemma {:induction false} StrLeAntisymmetric(a: string, b: string)
    requires StrLe(a, b) && StrLe(b, a)
    ensures a == b
  {
    if a != [] && b != [] {
      StrLeAntisymmetric(a[1..], b[1..]);
      assert a == [a[0]] + a[1..] && b == [b[0]] + b[1..];
    }
  }

  function SortKey(it: CategoryItem): string {
    Lower(it.name)
  }

  predicate Sorted(s: seq<CategoryItem>) {
    forall i, j :: 0 <= i < j < |s| ==> StrLe(SortKey(s[i]), SortKey(s[j]))
  }

  /** Places `x` after every element whose key is not greater than its own. */
  function Insert(s: seq<CategoryItem>, x: CategoryItem): seq<CategoryItem> {
    if s == [] then [x]
    else if !StrLe(SortKey(s[0]), SortKey(x)) then [x] + s
    else [s[0]] + Insert(s[1..], x)
  }

  lemma {:induction false} InsertPermutes(s: seq<CategoryItem>, x: CategoryItem)
    ensures multiset(Insert(s, x)) == multiset(s) + multiset{x}
  {
    if s != [] && StrLe(SortKey(s[0]), SortKey(x)) {
      InsertPermutes(s[1..], x);
      assert s == [s[0]] + s[1..];
    }
  }

  /** The sorted list: each element in turn is inserted into the sorted list of those before. */
  function SortByLowerName(s: seq<CategoryItem>): seq<CategoryItem> {
    if s == [] then [] else Insert(SortByLowerName(s[..|s| - 1]), s[|s| - 1])
  }

  /** The sort is a permutation. */
  lemma {:induction false} SortPermutes(s: seq<CategoryItem>)
    ensures multiset(SortByLowerName(s)) == multiset(s)
  {
    if s != [] {
      SortPermutes(s[..|s| - 1]);
      InsertPermutes(SortByLowerName(s[..|s| - 1]), s[|s| - 1]);
      MultisetSnoc(s);
    }
  }

  lemma {:induction false} InsertSorted(s: seq<CategoryItem>, x: CategoryItem)
    requires Sorted(s)
    ensures Sorted(Insert(s, x))
  {
    if s != [] {
      if !StrLe(SortKey(s[0]), SortKey(x)) {
        StrLeTotal(SortKey(s[0]), SortKey(x));
        forall j | 0 <= j < |s| ensures StrLe(SortKey(x), SortKey(s[j])) {
          if j > 0 { StrLeTrans(SortKey(x), SortKey(s[0]), SortKey(s[j])); }
        }
        ConsSorted(x, s);
      } else {
        InsertSorted(s[1..], x);
        assert forall j :: 0 <= j < |s[1..]| ==> StrLe(SortKey(s[0]), SortKey(s[1..][j])) by {
          assert forall j :: 0 <= j < |s[1..]| ==> s[1..][j] == s[j + 1];
        }
        InsertLowerBound(s[1..], x, SortKey(s[0]));
        ConsSorted(s[0], Insert(s[1..], x));
      }
    }
  }

  /** An item whose key bounds every key of a sorted list keeps it sorted in front of it. */
  lemma ConsSorted(h: CategoryItem, tail: seq<CategoryItem>)
    requires Sorted(tail) && forall j :: 0 <= j < |tail| ==> StrLe(SortKey(h), SortKey(tail[j]))
    ensures Sorted([h] + tail)
  {
    var r := [h] + tail;
    forall i, j | 0 <= i < j < |r| ensures StrLe(SortKey(r[i]), SortKey(r[j])) {
      assert r[j] == tail[j - 1];
      if i > 0 {
        assert r[i] == tail[i - 1];
      }
    }
  }

  /** A lower bound of every key of `s` and of the key of `x` bounds every key after insertion. */
  lemma {:induction false} InsertLowerBound(s: seq<CategoryItem>, x: CategoryItem, lo: string)
    requires forall j :: 0 <= j < |s| ==> StrLe(lo, SortKey(s[j]))
    requires StrLe(lo, SortKey(x))
    ensures forall j :: 0 <= j < |Insert(s, x)| ==> StrLe(lo, SortKey(Insert(s, x)[j]))
  {
    if s != [] && StrLe(SortKey(s[0]), SortKey(x)) {
      assert forall j :: 0 <= j < |s[1..]| ==> s[1..][j] == s[j + 1];
      InsertLowerBound(s[1..], x, lo);
      var tail := Insert(s[1..], x);
      assert forall j :: 1 <= j < |tail| + 1 ==> ([s[0]] + tail)[j] == tail[j - 1];
    }
  }

  /** The sort orders by lower-case name. */
  lemma {:induction false} SortSorted(s: seq<CategoryItem>)
    ensures Sorted(SortByLowerName(s))
  {
    if s != [] {
      SortSorted(s[..|s| - 1]);
      InsertSorted(SortByLowerName(s[..|s| - 1]), s[|s| - 1]);
    }
  }

  /** Selects the items whose key is `k`. */
  function KeyIs(k: string): CategoryItem -> bool {
    it => SortKey(it) == k
  }

  lemma {:induction false} FilterInsert(s: seq<CategoryItem>, x: CategoryItem, k: string)
    requires Sorted(s)
    ensures Filter(Insert(s, x), KeyIs(k)) == Filter(s, KeyIs(k)) + (if SortKey(x) == k then [x] else [])
  {
    if s == [] {
      FilterSingle(x, KeyIs(k));
    } else if !StrLe(SortKey(s[0]), SortKey(x)) {
      FilterInsertFront(s, x, k);
    } else {
      FilterInsert(s[1..], x, k);
      FilterInsertBehind(s, x, k);
    }
  }

  /** Case of `FilterInsert` where `x` goes in front. */
  lemma FilterInsertFront(s: seq<CategoryItem>, x: CategoryItem, k: string)
    requires Sorted(s) && s != [] && !StrLe(SortKey(s[0]), SortKey(x))
    ensures Filter(Insert(s, x), KeyIs(k)) == Filter(s, KeyIs(k)) + (if SortKey(x) == k then [x] else [])
  {
    assert Insert(s, x) == [x] + s;
    assert ([x] + s)[1..] == s;
    if SortKey(x) == k {
      NoKeyAfterGreater(s, x);
      FilterNone(s, KeyIs(k));
      assert [x] + [] == [] + [x];
    }
  }

  /** Case of `FilterInsert` where `x` goes behind the head. */
  lemma FilterInsertBehind(s: seq<CategoryItem>, x: CategoryItem, k: string)
    requires s != [] && StrLe(SortKey(s[0]), SortKey(x))
    requires Filter(Insert(s[1..], x), KeyIs(k)) ==
      Filter(s[1..], KeyIs(k)) + (if SortKey(x) == k then [x] else [])
    ensures Filter(Insert(s, x), KeyIs(k)) == Filter(s, KeyIs(k)) + (if SortKey(x) == k then [x] else [])
  {
    HeadTail(s);
    FilterConsAppend(s[0], Insert(s[1..], x), s[1..], if SortKey(x) == k then [x] else [], KeyIs(k));
  }

  /** No item of a sorted list whose head key is greater than that of `x` has the key of `x`. */
  lemma NoKeyAfterGreater(s: seq<CategoryItem>, x: CategoryItem)
    requires Sorted(s) && s != [] && !StrLe(SortKey(s[0]), SortKey(x))
    ensures forall j :: 0 <= j < |s| ==> !KeyIs(SortKey(x))(s[j])
  {
    StrLeReflexive(SortKey(x));
    forall j | 0 <= j < |s| ensures SortKey(s[j]) != SortKey(x) {
      if j > 0 {
        assert StrLe(SortKey(s[0]), SortKey(s[j]));
      }
    }
  }

  /** The sort is stable: the items sharing a key keep their relative order. */
  lemma {:induction false} SortStable(s: seq<CategoryItem>, k: string)
    ensures Filter(SortByLowerName(s), KeyIs(k)) == Filter(s, KeyIs(k))
  {
    if s != [] {
      var init := s[..|s| - 1];
      var x := s[|s| - 1];
      SortStable(init, k);
      SortSorted(init);
      StableStep(SortByLowerName(init), init, x, k);
      assert s == init + [x];
    }
  }

  /** Inserting the next item into the sorted prefix keeps the items of each key in input order. */
  lemma StableStep(sortedInit: seq<CategoryItem>, init: seq<CategoryItem>, x: CategoryItem, k: string)
    requires Sorted(sortedInit) && Filter(sortedInit, KeyIs(k)) == Filter(init, KeyIs(k))
    ensures Filter(Insert(sortedInit, x), KeyIs(k)) == Filter(init + [x], KeyIs(k))
  {
    FilterInsert(sortedInit, x, k);
    FilterAppend(init, [x], KeyIs(k));
    FilterSingle(x, KeyIs(k));
  }

  // ---------------------------------------------------------------------------------------------
  // buildCategories
  // ---------------------------------------------------------------------------------------------

  /** The GROUP items and then the COUNTRY items, each in order of first occurrence. */
  function UnsortedCategories(channels: seq<Channel>): seq<CategoryItem> {
    Items(Tally(TokensOf(channels, GROUP)), GROUP) + Items(Tally(TokensOf(channels, COUNTRY)), COUNTRY)
  }

  /** What `buildCategories` returns. */
  function Categories(channels: seq<Channel>): seq<CategoryItem> {
    SortByLowerName(UnsortedCategories(channels))
  }

  /** `buildCategories`: one pass over the channels fills two insertion-ordered count maps, which are
      then turned into items and sorted. */
  method BuildCategories(channels: seq<Channel>) returns (categories: seq<CategoryItem>)
    ensures categories == Categories(channels)
  {
    var groupCounts: Counts := [];
    var countryCounts: Counts := [];
    for i := 0 to |channels|
      invariant groupCounts == Tally(TokensOf(channels[..i], GROUP))
      invariant countryCounts == Tally(TokensOf(channels[..i], COUNTRY))
    {
      var ch := channels[i];
      var groups := FacetTokens(ch.groupTitle, UNDEFINED_GROUP);
      var countries := FacetTokens(ch.country, UNKNOWN_COUNTRY);
      TokensOfSnoc(channels, i, GROUP);
      TokensOfSnoc(channels, i, COUNTRY);
      groupCounts := CountTokens(groupCounts, groups, TokensOf(channels[..i], GROUP));
      countryCounts := CountTokens(countryCounts, countries, TokensOf(channels[..i], COUNTRY));
    }
    assert channels[..|channels|] == channels;
    var groupItems := Items(groupCounts, GROUP);
    var countryItems := Items(countryCounts, COUNTRY);
    categories := SortByLowerName(groupItems + countryItems);
  }

  /** `tokens.forEach { t -> counts[t] = (counts[t] ?: 0) + 1 }`, on the map of the tokens
      `before`. */
  method CountTokens(counts: Counts, tokens: seq<string>, ghost before: seq<string>) returns (updated: Counts)
    requires counts == Tally(before)
    ensures updated == Tally(before + tokens)
  {
    updated := counts;
    assert before + tokens[..0] == before;
    for j := 0 to |tokens|
      invariant updated == Tally(before + tokens[..j])
    {
      var t := tokens[j];
      TallyStep(before, tokens, j, updated);
      updated := Put(updated, t, Lookup(updated, t).GetOr(0) + 1);
    }
    assert tokens[..|tokens|] == tokens;
  }

  /** One turn of an inner `forEach`: the next token is counted. */
  lemma TallyStep<K>(before: seq<K>, tokens: seq<K>, j: nat, counts: seq<Entry<K>>)
    requires j < |tokens| && counts == Tally(before + tokens[..j])
    ensures Put(counts, tokens[j], Lookup(counts, tokens[j]).GetOr(0) + 1) == Tally(before + tokens[..j + 1])
  {
    AppendPrefixStep(before, tokens, j);
    TallySnoc(before + tokens[..j], tokens[j]);
  }

  // ---------------------------------------------------------------------------------------------
  // What the category list holds
  // ---------------------------------------------------------------------------------------------

  /** The items of a tally are exactly the tokens, each with the number of times it occurs. */
  lemma ItemsMeaning(tokens: seq<string>, t: CategoryType, x: CategoryItem)
    ensures x in Items(Tally(tokens), t) <==>
      x.categoryType == t && x.name in tokens && x.count == Count(tokens, x.name)
  {
    var c := Tally(tokens);
    TallyKeys(tokens);
    TallyLookup(tokens, x.name);
    if x in Items(c, t) {
      var i :| 0 <= i < |c| && Items(c, t)[i] == x;
      KeysAt(c, i);
      LookupAt(c, i);
    }
    if x.categoryType == t && x.name in tokens && x.count == Count(tokens, x.name) {
      var i :| 0 <= i < |Keys(c)| && Keys(c)[i] == x.name;
      KeysAt(c, i);
      LookupAt(c, i);
      assert Items(c, t)[i] == x;
    }
  }

  /** No two items of a tally are equal. */
  lemma ItemsUnique(tokens: seq<string>, t: CategoryType)
    ensures NoDuplicates(Items(Tally(tokens), t))
  {
    var c := Tally(tokens);
    TallyKeys(tokens);
    forall i, j | 0 <= i < j < |c| ensures Items(c, t)[i] != Items(c, t)[j] {
      KeysAt(c, i);
      KeysAt(c, j);
    }
  }

  /** An item is in the category list exactly when its name is one of the tokens of its type, and
      its count is the number of times that token occurs across all channels. */
  lemma CategoriesMeaning(channels: seq<Channel>, x: CategoryItem)
    ensures x in Categories(channels) <==>
      x.name in TokensOf(channels, x.categoryType) &&
      x.count == Count(TokensOf(channels, x.categoryType), x.name)
    ensures x in Categories(channels) ==> x.count >= 1
  {
    var groups := Items(Tally(TokensOf(channels, GROUP)), GROUP);
    var countries := Items(Tally(TokensOf(channels, COUNTRY)), COUNTRY);
    SortPermutes(groups + countries);
    assert x in Categories(channels) <==> x in groups + countries by {
      assert x in Categories(channels) <==> x in multiset(Categories(channels));
      assert x in groups + countries <==> x in multiset(groups + countries);
    }
    ItemsMeaning(TokensOf(channels, GROUP), GROUP, x);
    ItemsMeaning(TokensOf(channels, COUNTRY), COUNTRY, x);
  }

  /** There is one item per name and category type, and no item twice. */
  lemma CategoriesUnique(channels: seq<Channel>)
    ensures NoDuplicates(Categories(channels))
    ensures forall i, j :: 0 <= i < j < |Categories(channels)| ==>
      Categories(channels)[i].name != Categories(channels)[j].name ||
      Categories(channels)[i].categoryType != Categories(channels)[j].categoryType
  {
    var groups := Items(Tally(TokensOf(channels, GROUP)), GROUP);
    var countries := Items(Tally(TokensOf(channels, COUNTRY)), COUNTRY);
    var all := groups + countries;
    ItemsUnique(TokensOf(channels, GROUP), GROUP);
    ItemsUnique(TokensOf(channels, COUNTRY), COUNTRY);
    forall i, j | 0 <= i < j < |all| ensures all[i] != all[j] {
      if j < |groups| {
        assert all[i] == groups[i] && all[j] == groups[j];
      } else if i >= |groups| {
        assert all[i] == countries[i - |groups|] && all[j] == countries[j - |groups|];
      } else {
        assert all[i].categoryType == GROUP && all[j].categoryType == COUNTRY;
      }
    }
    SortPermutes(all);
    PermutationNoDuplicates(Categories(channels), all);
    var r := Categories(channels);
    forall i, j | 0 <= i < j < |r| && r[i].name == r[j].name
      ensures r[i].categoryType != r[j].categoryType
    {
      CategoriesMeaning(channels, r[i]);
      CategoriesMeaning(channels, r[j]);
      assert r[i] != r[j];
    }
  }

  /** The list is ordered by lower-cased name, and items whose lower-cased names are equal keep
      their first-occurrence order, groups before countries. */
  lemma CategoriesOrdered(channels: seq<Channel>, k: string)
    ensures Sorted(Categories(channels))
    ensures Filter(Categories(channels), KeyIs(k)) == Filter(UnsortedCategories(channels), KeyIs(k))
  {
    SortSorted(UnsortedCategories(channels));
    SortStable(UnsortedCategories(channels), k);
  }

  /** A token repeated within one channel's field is counted once per occurrence: a single
      channel in group `News;News` yields the item `News` with count 2. */
  lemma RepeatedTokenCountsTwice(ch: Channel)
    requires ch.groupTitle == Some("News;News")
    ensures GroupTokens(ch) == ["News", "News"]
    ensures CategoryItem("News", GROUP, 2) in Categories([ch])
  {
    NewsNewsTokens(ch);
    var channels := [ch];
    var item := CategoryItem("News", GROUP, 2);
    assert TokensOf(channels, GROUP) == ["News", "News"] by {
      assert channels[..0] == [];
    }
    assert Count(["News", "News"], "News") == 2;
    CategoriesMeaning(channels, item);
  }

  lemma NewsNewsTokens(ch: Channel)
    requires ch.groupTitle == Some("News;News")
    ensures GroupTokens(ch) == ["News", "News"]
  {
    NewsNewsPieces();
    NewsNewsTrimmed();
  }

  lemma NewsNewsPieces()
    ensures Split("News;News") == ["News", "News"]
  {
    assert "News;News" == "News" + [';'] + "News";
    SplitFirstPiece("News", ';', "News");
    SplitWhole("News");
  }

  lemma NewsNewsTrimmed()
    ensures TrimmedPieces(["News", "News"]) == ["News", "News"]
  {
    TrimTrimmed("News");
    assert ["News", "News"][1..] == ["News"];
    assert ["News"][1..] == [];
    assert TrimmedPieces(["News"]) == ["News"];
  }
}
