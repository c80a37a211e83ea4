/** The M3U playlist parser: a line-by-line state machine over the playlist text that emits one
    channel per `#EXTINF:` line followed by a stream URL line (the tags of sections 4.3.1.1 and
    4.3.2.1 of RFC 8216; the `tvg-*` and `group-title` attributes are an IPTV convention). */
module M3UParser {
  import opened Wrappers
  import opened Text
  import opened Sequences
  import opened Model

  // ---------------------------------------------------------------------------------------------
  // The attribute pattern `([a-zA-Z-]+)="([^"]+)"` and the matcher's `find()` loop
  // ---------------------------------------------------------------------------------------------

  /** A character of the key class `[a-zA-Z-]`. */
  predicate IsKeyChar(c: char) {
    'a' <= c <= 'z' || 'A' <= c <= 'Z' || c == '-'
  }

  /** What group 1 of the pattern can capture. */
  predicate IsKey(s: string) {
    s != [] && forall i :: 0 <= i < |s| ==> IsKeyChar(s[i])
  }

  /** What group 2 of the pattern can capture. */
  predicate IsValue(s: string) {
    s != [] && forall i :: 0 <= i < |s| ==> s[i] != '"'
  }

  datatype Attr = Attr(key: string, value: string)

  /** One match of the pattern: `line[start..end]` reads `key="value"`. */
  datatype Match = Match(attr: Attr, start: nat, end: nat)

  /** The text the pattern matches for an attribute. */
  function Render(a: Attr): string {
    a.key + ['=', '"'] + a.value + ['"']
  }

  lemma RenderAt(a: Attr)
    ensures |Render(a)| == |a.key| + |a.value| + 3
    ensures forall k :: 0 <= k < |a.key| ==> Render(a)[k] == a.key[k]
    ensures Render(a)[|a.key|] == '=' && Render(a)[|a.key| + 1] == '"'
    ensures forall k :: 0 <= k < |a.value| ==> Render(a)[|a.key| + 2 + k] == a.value[k]
    ensures Render(a)[|a.key| + |a.value| + 2] == '"'
  {
  }

  /** End of the longest run of key characters that starts at `i` (greedy `[a-zA-Z-]+`). */
  function KeyEnd(s: string, i: nat): (j: nat)
    requires i <= |s|
    ensures i <= j <= |s|
    ensures forall k :: i <= k < j ==> IsKeyChar(s[k])
    ensures j == |s| || !IsKeyChar(s[j])
    decreases |s| - i
  {
    if i < |s| && IsKeyChar(s[i]) then KeyEnd(s, i + 1) else i
  }

  /** Index of the first `"` at or after `i`, or `|s|` (greedy `[^"]+`). */
  function QuoteFrom(s: string, i: nat): (q: nat)
    requires i <= |s|
    ensures i <= q <= |s|
    ensures forall k :: i <= k < q ==> s[k] != '"'
    ensures q == |s| || s[q] == '"'
    decreases |s| - i
  {
    if i < |s| && s[i] != '"' then QuoteFrom(s, i + 1) else i
  }

  /** The match of the pattern anchored at `i`, if any. Backtracking cannot help the pattern:
      a shorter key would be followed by a key character instead of `=`, a shorter value by a
      character other than `"`. */
  function MatchAt(s: string, i: nat): (m: Option<Match>)
    requires i <= |s|
    ensures m.Some? ==> m.value.start == i && i < m.value.end <= |s|
    ensures m.Some? ==> IsKey(m.value.attr.key) && IsValue(m.value.attr.value)
    ensures m.Some? ==> s[i..m.value.end] == Render(m.value.attr)
  {
    var j := KeyEnd(s, i);
    if i < j && j + 1 < |s| && s[j] == '=' && s[j + 1] == '"' then
      var q := QuoteFrom(s, j + 2);
      if j + 2 < q < |s| then
        var m := Match(Attr(s[i..j], s[j + 2..q]), i, q + 1);
        assert s[i..q + 1] == s[i..j] + ['=', '"'] + s[j + 2..q] + ['"'];
        Some(m)
      else None
    else None
  }

  /** The pattern matches at `i` whenever the text there reads `key="value"`: `MatchAt` misses
      no match. */
  lemma MatchAtComplete(s: string, i: nat, a: Attr, e: nat)
    requires i <= e <= |s| && IsKey(a.key) && IsValue(a.value)
    requires s[i..e] == Render(a)
    ensures MatchAt(s, i) == Some(Match(a, i, e))
  {
    var j := i + |a.key|;
    var q := j + 2 + |a.value|;
    RenderedAt(s, i, a, e);
    KeyEndOfKey(s, i, a.key);
    QuoteFromOfValue(s, j + 2, a.value);
    MatchAtParts(s, i, j, q);
  }

  /** `MatchAt` once the key run and the closing quote are located. */
  lemma MatchAtParts(s: string, i: nat, j: nat, q: nat)
    requires i < j && j + 2 < q < |s| && s[j] == '=' && s[j + 1] == '"'
    requires KeyEnd(s, i) == j && QuoteFrom(s, j + 2) == q
    ensures MatchAt(s, i) == Some(Match(Attr(s[i..j], s[j + 2..q]), i, q + 1))
  {
  }

  /** Where the parts of `key="value"` lie when `s[i..e]` reads it. */
  lemma RenderedAt(s: string, i: nat, a: Attr, e: nat)
    requires i <= e <= |s| && s[i..e] == Render(a)
    ensures e == i + |a.key| + |a.value| + 3
    ensures s[i..i + |a.key|] == a.key
    ensures s[i + |a.key|] == '=' && s[i + |a.key| + 1] == '"'
    ensures s[i + |a.key| + 2..e - 1] == a.value && s[e - 1] == '"'
  {
    var t := s[i..e];
    var j := |a.key|;
    assert t[..j] == a.key;
    assert s[i..i + j] == t[..j];
    assert t[j] == '=' && t[j + 1] == '"';
    assert t[j + 2..|t| - 1] == a.value;
    assert s[i + j + 2..e - 1] == t[j + 2..|t| - 1];
  }

  /** The greedy key run at `i` ends right after a key that `=` follows. */
  lemma KeyEndOfKey(s: string, i: nat, key: string)
    requires IsKey(key) && i + |key| < |s| && s[i..i + |key|] == key && s[i + |key|] == '='
    ensures KeyEnd(s, i) == i + |key|
  {
    forall k | i <= k < i + |key| ensures IsKeyChar(s[k]) {
      assert s[k] == s[i..i + |key|][k - i];
    }
    KeyEndAt(s, i, i + |key|);
  }

  /** The quote search from `i` stops right after a value that `"` follows. */
  lemma QuoteFromOfValue(s: string, i: nat, value: string)
    requires IsValue(value) && i + |value| < |s| && s[i..i + |value|] == value
    requires s[i + |value|] == '"'
    ensures QuoteFrom(s, i) == i + |value|
  {
    forall k | i <= k < i + |value| ensures s[k] != '"' {
      assert s[k] == s[i..i + |value|][k - i];
    }
    QuoteFromAt(s, i, i + |value|);
  }

  lemma {:induction false} KeyEndAt(s: string, i: nat, j: nat)
    requires i <= j < |s|
    requires forall k :: i <= k < j ==> IsKeyChar(s[k])
    requires !IsKeyChar(s[j])
    ensures KeyEnd(s, i) == j
    decreases j - i
  {
    if i < j {
      KeyEndAt(s, i + 1, j);
    }
  }

  lemma {:induction false} QuoteFromAt(s: string, i: nat, q: nat)
    requires i <= q < |s|
    requires forall k :: i <= k < q ==> s[k] != '"'
    requires s[q] == '"'
    ensures QuoteFrom(s, i) == q
    decreases q - i
  {
    if i < q {
      QuoteFromAt(s, i + 1, q);
    }
  }

  /** `matcher.find()` from position `from`: the leftmost match that starts at or after it. */
  function FindFrom(s: string, from: nat): (m: Option<Match>)
    requires from <= |s|
    ensures m.Some? ==> from <= m.value.start < m.value.end <= |s| && MatchAt(s, m.value.start) == m
    decreases |s| - from
  {
    match MatchAt(s, from)
    case Some(m) => Some(m)
    case None => if from == |s| then None else FindFrom(s, from + 1)
  }

  /** `find()` returns the LEFTMOST match: no position between `from` and the match (or the end
      of the line, when there is none) starts one. */
  lemma {:induction false} FindFromLeftmost(s: string, from: nat, k: nat)
    requires from <= k <= |s|
    requires FindFrom(s, from).None? || k < FindFrom(s, from).value.start
    ensures MatchAt(s, k).None?
    decreases |s| - from
  {
    if MatchAt(s, from).None? && from < k {
      FindFromLeftmost(s, from + 1, k);
    }
  }

  /** The successive matches `find()` returns, resuming each search where the previous match
      ended. */
  function Matches(s: string, from: nat): (r: seq<Attr>)
    requires from <= |s|
    decreases |s| - from
  {
    match FindFrom(s, from)
    case None => []
    case Some(m) => [m.attr] + Matches(s, m.end)
  }

  lemma MatchesUnfold(s: string, from: nat)
    requires from <= |s|
    ensures FindFrom(s, from).None? ==> Matches(s, from) == []
    ensures FindFrom(s, from).Some? ==>
      Matches(s, from) == [FindFrom(s, from).value.attr] + Matches(s, FindFrom(s, from).value.end)
  {
  }

  /** One turn of the `find()` loop: the match found moves from the matches still to come to the
      matches already stored. */
  lemma FindStep(s: string, pos: nat, found: seq<Attr>)
    requires pos <= |s| && FindFrom(s, pos).Some?
    requires Matches(s, 0) == found + Matches(s, pos)
    ensures var m := FindFrom(s, pos).value;
      Matches(s, 0) == (found + [m.attr]) + Matches(s, m.end) &&
      ToMap(found + [m.attr]) == ToMap(found)[m.attr.key := m.attr.value]
  {
    var m := FindFrom(s, pos).value;
    MatchesUnfold(s, pos);
    assert found + ([m.attr] + Matches(s, m.end)) == (found + [m.attr]) + Matches(s, m.end);
    assert (found + [m.attr])[..|found|] == found;
  }

  /** The map a sequence of `attributes[key] = value` writes builds: later writes overwrite. */
  function ToMap(attrs: seq<Attr>): map<string, string> {
    if attrs == [] then map[]
    else ToMap(attrs[..|attrs| - 1])[attrs[|attrs| - 1].key := attrs[|attrs| - 1].value]
  }

  /** The attribute map of an `#EXTINF:` line. */
  function AttributeMap(line: string): map<string, string> {
    ToMap(Matches(line, 0))
  }

  /** `parseAttributes`: runs `find()` until it fails and stores each match in a mutable map. */
  method ParseAttributes(extInfLine: string) returns (attributes: map<string, string>)
    ensures attributes == AttributeMap(extInfLine)
  {
    attributes := map[];
    var pos := 0;
    ghost var found: seq<Attr> := [];
    var m := FindFrom(extInfLine, pos);
    while m.Some?
      invariant pos <= |extInfLine|
      invariant m == FindFrom(extInfLine, pos)
      invariant Matches(extInfLine, 0) == found + Matches(extInfLine, pos)
      invariant attributes == ToMap(found)
      decreases |extInfLine| - pos
    {
      var attr := m.value.attr;
      FindStep(extInfLine, pos, found);
      attributes := attributes[attr.key := attr.value];
      found := found + [attr];
      pos := m.value.end;
      m := FindFrom(extInfLine, pos);
    }
    MatchesUnfold(extInfLine, pos);
    assert found + [] == found;
  }

  lemma {:induction false} MatchesWellFormed(s: string, from: nat)
    requires from <= |s|
    ensures forall i :: 0 <= i < |Matches(s, from)| ==>
      IsKey(Matches(s, from)[i].key) && IsValue(Matches(s, from)[i].value)
    decreases |s| - from
  {
    match FindFrom(s, from)
    case None =>
    case Some(m) =>
      MatchesWellFormed(s, m.end);
  }

  /** Some write uses `key`. */
  predicate Writes(attrs: seq<Attr>, key: string) {
    exists i :: 0 <= i < |attrs| && attrs[i].key == key
  }

  lemma {:induction false} ToMapKeys(attrs: seq<Attr>, key: string)
    ensures key in ToMap(attrs) <==> Writes(attrs, key)
  {
    if attrs != [] {
      var init := attrs[..|attrs| - 1];
      var n := |attrs| - 1;
      ToMapKeys(init, key);
      if Writes(init, key) {
        var i :| 0 <= i < |init| && init[i].key == key;
        assert attrs[i] == init[i];
      }
      if attrs[n].key != key && Writes(attrs, key) {
        var i :| 0 <= i < |attrs| && attrs[i].key == key;
        assert init[i] == attrs[i];
      }
    }
  }

  /** The position of the last write with `key`, whose value the map holds. */
  lemma {:induction false} ToMapLastWrite(attrs: seq<Attr>, key: string) returns (i: nat)
    requires key in ToMap(attrs)
    ensures i < |attrs| && attrs[i].key == key && ToMap(attrs)[key] == attrs[i].value
    ensures forall j :: i < j < |attrs| ==> attrs[j].key != key
  {
    var n := |attrs| - 1;
    if attrs[n].key == key {
      i := n;
    } else {
      var init := attrs[..n];
      assert ToMap(attrs) == ToMap(init)[attrs[n].key := attrs[n].value];
      i := ToMapLastWrite(init, key);
      assert attrs[i] == init[i];
      forall j | i < j < |attrs| ensures attrs[j].key != key {
        if j < n {
          assert attrs[j] == init[j];
        }
      }
    }
  }

  /** A key is in the map iff some write used it, and its value is the value of the LAST write
      with that key. */
  lemma ToMapLastWins(attrs: seq<Attr>, key: string)
    ensures key in ToMap(attrs) <==> exists i :: 0 <= i < |attrs| && attrs[i].key == key
    ensures key in ToMap(attrs) ==> exists i :: (0 <= i < |attrs| && attrs[i].key == key &&
      ToMap(attrs)[key] == attrs[i].value && forall j :: i < j < |attrs| ==> attrs[j].key != key)
  {
    ToMapKeys(attrs, key);
    if key in ToMap(attrs) {
      var i := ToMapLastWrite(attrs, key);
    }
  }

  /** Some match of `line` reads `key="value"`, and no later match has the same key. */
  ghost predicate LastMatchOf(line: string, key: string, value: string) {
    var ms := Matches(line, 0);
    exists i :: (0 <= i < |ms| && ms[i].key == key && ms[i].value == value &&
      forall j :: i < j < |ms| ==> ms[j].key != key)
  }

  /** Every key of an attribute map is made of ASCII letters and `-`, every value is non-empty
      and free of `"`, and the value of a repeated key is that of its last occurrence. */
  lemma AttributeMapProperties(line: string)
    ensures forall key :: key in AttributeMap(line) ==> IsKey(key) && IsValue(AttributeMap(line)[key])
    ensures forall key :: key in AttributeMap(line) ==> LastMatchOf(line, key, AttributeMap(line)[key])
  {
    MatchesWellFormed(line, 0);
    forall key | key in AttributeMap(line)
      ensures IsKey(key) && IsValue(AttributeMap(line)[key])
      ensures LastMatchOf(line, key, AttributeMap(line)[key])
    {
      ToMapLastWins(Matches(line, 0), key);
    }
  }

  // ---------------------------------------------------------------------------------------------
  // Channel construction
  // ---------------------------------------------------------------------------------------------

  const UNKNOWN_CHANNEL: string := "Unknown Channel"

  /** `s.lastIndexOf(c)`, `None` standing for -1. */
  function LastIndexOf(s: string, c: char): (r: Option<nat>)
    ensures r.Some? ==> r.value < |s| && s[r.value] == c && forall j :: r.value < j < |s| ==> s[j] != c
    ensures r.None? ==> forall j :: 0 <= j < |s| ==> s[j] != c
  {
    if s == [] then None
    else if s[|s| - 1] == c then Some(|s| - 1)
    else LastIndexOf(s[..|s| - 1], c)
  }

  lemma LastIndexOfIsLastComma(line: string)
    ensures forall k: nat :: IsLastComma(line, k) ==> LastIndexOf(line, ',') == Some(k)
  {
    forall k: nat | IsLastComma(line, k) ensures LastIndexOf(line, ',') == Some(k) {
      var r := LastIndexOf(line, ',');
      assert r.Some? by { assert line[k] == ','; }
      assert !(r.value < k) && !(k < r.value);
    }
  }

  /** `k` is the position of the last comma of `line`. */
  predicate IsLastComma(line: string, k: nat) {
    k < |line| && line[k] == ',' && forall j :: k < j < |line| ==> line[j] != ','
  }

  /** The display name `createChannel` gives: the trimmed text after the last comma unless that
      comma ends the line or there is none, in which case `tvg-name`, failing that
      "Unknown Channel". */
  function ChannelName(extInfLine: string, attributes: map<string, string>): (name: string)
    ensures forall k: nat :: IsLastComma(extInfLine, k) && k < |extInfLine| - 1 ==>
      name == Trim(extInfLine[k + 1..])
    ensures (forall j :: 0 <= j < |extInfLine| ==> extInfLine[j] != ',') ||
            (extInfLine != [] && extInfLine[|extInfLine| - 1] == ',') ==>
      name == Get(attributes, "tvg-name").GetOr(UNKNOWN_CHANNEL)
  {
    var commaIndex := LastIndexOf(extInfLine, ',');
    LastIndexOfIsLastComma(extInfLine);
    if commaIndex.Some? && commaIndex.value < |extInfLine| - 1 then Trim(extInfLine[commaIndex.value + 1..])
    else Get(attributes, "tvg-name").GetOr(UNKNOWN_CHANNEL)
  }

  /** `createChannel`: the channel of an `#EXTINF:` line and the URL line after it; every field
      but the name is the like-named attribute, and `tvgName` falls back to the name. */
  function CreateChannel(extInfLine: string, attributes: map<string, string>, streamUrl: string): (c: Channel)
    ensures c.name == ChannelName(extInfLine, attributes)
    ensures c.streamUrl == streamUrl
    ensures c.tvgName == Some(Get(attributes, "tvg-name").GetOr(c.name))
    ensures c.logoUrl == Get(attributes, "tvg-logo")
    ensures c.groupTitle == Get(attributes, "group-title")
    ensures c.country == Get(attributes, "tvg-country")
    ensures c.language == Get(attributes, "tvg-language")
    ensures c.tvgId == Get(attributes, "tvg-id")
  {
    var channelName := ChannelName(extInfLine, attributes);
    Channel(
      name := channelName,
      streamUrl := streamUrl,
      logoUrl := Get(attributes, "tvg-logo"),
      groupTitle := Get(attributes, "group-title"),
      country := Get(attributes, "tvg-country"),
      language := Get(attributes, "tvg-language"),
      tvgId := Get(attributes, "tvg-id"),
      tvgName := Some(Get(attributes, "tvg-name").GetOr(channelName)))
  }

  /** A channel made from a non-empty `#EXTINF:` line that does not end in whitespace (as a
      trimmed line does not) and from its own attributes never has an empty name. */
  lemma CreatedNameNonEmpty(extInfLine: string, streamUrl: string)
    requires extInfLine != [] && !IsWhitespace(extInfLine[|extInfLine| - 1])
    ensures CreateChannel(extInfLine, AttributeMap(extInfLine), streamUrl).name != []
  {
    FallbackNameNonEmpty(extInfLine);
    var commaIndex := LastIndexOf(extInfLine, ',');
    if commaIndex.Some? && commaIndex.value < |extInfLine| - 1 {
      SuffixNotBlank(extInfLine, commaIndex.value + 1);
    }
  }

  /** The `tvg-name` fallback is never empty: attribute values are not. */
  lemma FallbackNameNonEmpty(line: string)
    ensures Get(AttributeMap(line), "tvg-name").GetOr(UNKNOWN_CHANNEL) != []
  {
    AttributeMapProperties(line);
  }

  // ---------------------------------------------------------------------------------------------
  // The line-by-line state machine
  // ---------------------------------------------------------------------------------------------

  /** The variables `parse` carries from line to line. */
  datatype ParserState = ParserState(
    currentExtInf: Option<string>,
    currentAttributes: Option<map<string, string>>,
    channels: seq<Channel>)

  const Start := ParserState(None, None, [])

  /** How `parse` treats a trimmed line, tested in the order of its `if` chain. */
  datatype LineKind = Blank | Header | ExtInf | Url | Comment

  function Classify(line: string): LineKind {
    if line == [] then Blank
    else if StartsWith(line, "#EXTM3U") then Header
    else if StartsWith(line, "#EXTINF:") then ExtInf
    else if !StartsWith(line, "#") then Url
    else Comment
  }

  /** The header test cannot hide an `#EXTINF:` line. */
  lemma ExtInfMeaning(line: string)
    ensures Classify(line) == ExtInf <==> StartsWith(line, "#EXTINF:")
  {
    if StartsWith(line, "#EXTINF:") {
      assert line[4] == "#EXTINF:"[4];
    }
  }

  /** A URL line is exactly a non-empty line that does not start with `#`. */
  lemma UrlMeaning(line: string)
    ensures Classify(line) == Url <==> line != [] && line[0] != '#'
  {
    if line != [] {
      assert StartsWith(line, "#") <==> line[0] == '#' by {
        assert line[..1] == [line[0]];
      }
    }
  }

  predicate IsExtInfLine(raw: string) {
    Classify(Trim(raw)) == ExtInf
  }

  predicate IsUrlLine(raw: string) {
    Classify(Trim(raw)) == Url
  }

  /** Blank lines, the `#EXTM3U` header and every other `#` line except `#EXTINF:`. */
  predicate IsIgnoredLine(raw: string) {
    var kind := Classify(Trim(raw));
    kind == Blank || kind == Header || kind == Comment
  }

  /** The body of the `for` loop of `parse`, for one raw line. */
  function Step(st: ParserState, raw: string): ParserState {
    var line := Trim(raw);
    match Classify(line)
    case ExtInf =>
      st.(currentExtInf := Some(line), currentAttributes := Some(AttributeMap(line)))
    case Url =>
      if st.currentExtInf.Some? then
        ParserState(None, None,
          st.channels + [CreateChannel(st.currentExtInf.value, st.currentAttributes.GetOr(map[]), line)])
      else st
    case _ => st
  }

  /** The state after processing `lines` in order from `st`. */
  function RunFrom(st: ParserState, lines: seq<string>): ParserState
    decreases |lines|
  {
    if lines == [] then st else RunFrom(Step(st, lines[0]), lines[1..])
  }

  /** What `parse` returns for the playlist text. */
  function Channels(m3uContent: string): seq<Channel> {
    RunFrom(Start, Lines(m3uContent)).channels
  }

  /** `parse`: splits the text into lines and runs the state machine with mutable variables. */
  method Parse(m3uContent: string) returns (channels: seq<Channel>)
    ensures channels == Channels(m3uContent)
  {
    channels := [];
    var lines := Lines(m3uContent);
    var currentExtInf: Option<string> := None;
    var currentAttributes: Option<map<string, string>> := None;
    for i := 0 to |lines|
      invariant RunFrom(ParserState(currentExtInf, currentAttributes, channels), lines[i..]) == RunFrom(Start, lines)
    {
      ghost var before := ParserState(currentExtInf, currentAttributes, channels);
      assert lines[i..][1..] == lines[i + 1..];
      var line := Trim(lines[i]);
      if line == [] {
      } else if StartsWith(line, "#EXTM3U") {
      } else if StartsWith(line, "#EXTINF:") {
        currentExtInf := Some(line);
        var attributes := ParseAttributes(line);
        currentAttributes := Some(attributes);
      } else if !StartsWith(line, "#") {
        if currentExtInf.Some? {
          var channel := CreateChannel(currentExtInf.value, currentAttributes.GetOr(map[]), line);
          channels := channels + [channel];
          currentExtInf := None;
          currentAttributes := None;
        }
      }
      assert ParserState(currentExtInf, currentAttributes, channels) == Step(before, lines[i]);
    }
  }

  // ---------------------------------------------------------------------------------------------
  // Properties of the state machine
  // ---------------------------------------------------------------------------------------------

  lemma RunFromOne(st: ParserState, line: string)
    ensures RunFrom(st, [line]) == Step(st, line)
  {
  }

  lemma {:induction false} RunFromAppend(st: ParserState, a: seq<string>, b: seq<string>)
    ensures RunFrom(st, a + b) == RunFrom(RunFrom(st, a), b)
    decreases |a|
  {
    if a == [] {
      assert a + b == b;
    } else {
      assert (a + b)[1..] == a[1..] + b;
      RunFromAppend(Step(st, a[0]), a[1..], b);
    }
  }

  /** Inserting a line that leaves the state alone does not change the final state. */
  lemma InertLine(pre: seq<string>, line: string, post: seq<string>)
    requires Step(RunFrom(Start, pre), line) == RunFrom(Start, pre)
    ensures RunFrom(Start, pre + [line] + post) == RunFrom(Start, pre + post)
  {
    RunFromAppend(Start, pre + [line], post);
    RunFromAppend(Start, pre, [line]);
    RunFromOne(RunFrom(Start, pre), line);
    RunFromAppend(Start, pre, post);
  }

  /** An `#EXTINF:` line replaces whatever EXTINF line and attributes were pending, and emits
      nothing. */
  lemma ExtInfReplacesPending(pre: seq<string>, extInf: string)
    requires IsExtInfLine(extInf)
    ensures RunFrom(Start, pre + [extInf]) ==
      RunFrom(Start, pre).(currentExtInf := Some(Trim(extInf)), currentAttributes := Some(AttributeMap(Trim(extInf))))
  {
    RunFromAppend(Start, pre, [extInf]);
    RunFromOne(RunFrom(Start, pre), extInf);
  }

  /** Blank lines, the header and other `#` lines change nothing: removing them from the playlist
      gives the same final state. */
  lemma IgnoredLineChangesNothing(pre: seq<string>, line: string, post: seq<string>)
    requires IsIgnoredLine(line)
    ensures RunFrom(Start, pre + [line] + post) == RunFrom(Start, pre + post)
  {
    InertLine(pre, line, post);
  }

  /** A URL line with no pending `#EXTINF:` emits nothing, and the lines after it are parsed as
      if it were not there. */
  lemma OrphanUrlDropped(pre: seq<string>, url: string, post: seq<string>)
    requires IsUrlLine(url) && RunFrom(Start, pre).currentExtInf.None?
    ensures RunFrom(Start, pre + [url] + post) == RunFrom(Start, pre + post)
  {
    InertLine(pre, url, post);
  }

  /** An `#EXTINF:` line followed by a URL line appends exactly one channel, built from the two
      trimmed lines, and leaves nothing pending. */
  lemma PairEmitsOneChannel(pre: seq<string>, extInf: string, url: string)
    requires IsExtInfLine(extInf) && IsUrlLine(url)
    ensures var st := RunFrom(Start, pre + [extInf, url]);
      st.channels == RunFrom(Start, pre).channels +
        [CreateChannel(Trim(extInf), AttributeMap(Trim(extInf)), Trim(url))] &&
      st.currentExtInf.None? && st.currentAttributes.None?
  {
    var st := RunFrom(Start, pre);
    var afterExtInf := Step(st, extInf);
    assert afterExtInf.currentExtInf == Some(Trim(extInf));
    assert afterExtInf.currentAttributes == Some(AttributeMap(Trim(extInf)));
    assert afterExtInf.channels == st.channels;
    RunFromAppend(Start, pre, [extInf, url]);
    assert RunFrom(st, [extInf, url]) == RunFrom(afterExtInf, [url]);
    RunFromOne(afterExtInf, url);
  }

  /** Once a channel is emitted, a second URL line with no new `#EXTINF:` is dropped. */
  lemma SecondUrlDropped(pre: seq<string>, extInf: string, url: string, url2: string, post: seq<string>)
    requires IsExtInfLine(extInf) && IsUrlLine(url) && IsUrlLine(url2)
    ensures RunFrom(Start, pre + [extInf, url, url2] + post) == RunFrom(Start, pre + [extInf, url] + post)
  {
    PairEmitsOneChannel(pre, extInf, url);
    OrphanUrlDropped(pre + [extInf, url], url2, post);
    SplicePair(pre, extInf, url, url2, post);
  }

  /** Number of `#EXTINF:` lines. */
  function CountExtInf(lines: seq<string>): nat {
    if lines == [] then 0 else (if IsExtInfLine(lines[0]) then 1 else 0) + CountExtInf(lines[1..])
  }

  function PendingCount(st: ParserState): nat {
    if st.currentExtInf.Some? then 1 else 0
  }

  lemma {:induction false} RunFromCount(st: ParserState, lines: seq<string>)
    ensures |RunFrom(st, lines).channels| + PendingCount(RunFrom(st, lines)) <=
      |st.channels| + PendingCount(st) + CountExtInf(lines)
    decreases |lines|
  {
    if lines != [] {
      var next := Step(st, lines[0]);
      assert |next.channels| + PendingCount(next) <=
        |st.channels| + PendingCount(st) + (if IsExtInfLine(lines[0]) then 1 else 0);
      RunFromCount(next, lines[1..]);
    }
  }

  /** A playlist never yields more channels than it has `#EXTINF:` lines. */
  lemma ChannelCountBound(m3uContent: string)
    ensures |Channels(m3uContent)| <= CountExtInf(Lines(m3uContent))
  {
    RunFromCount(Start, Lines(m3uContent));
  }

  /** The trimmed URL lines, in order. */
  function UrlLines(lines: seq<string>): (r: seq<string>)
    ensures forall i :: 0 <= i < |r| ==> r[i] != [] && r[i][0] != '#' && Trim(r[i]) == r[i]
  {
    if lines == [] then []
    else if IsUrlLine(lines[0]) then
      var url := Trim(lines[0]);
      assert Trim(url) == url by { TrimIdempotent(lines[0]); }
      assert url != [] && url[0] != '#' by { UrlMeaning(url); }
      [url] + UrlLines(lines[1..])
    else UrlLines(lines[1..])
  }

  function StreamUrls(channels: seq<Channel>): (r: seq<string>)
    ensures |r| == |channels| && forall i :: 0 <= i < |r| ==> r[i] == channels[i].streamUrl
  {
    seq(|channels|, i requires 0 <= i < |channels| => channels[i].streamUrl)
  }

  /** One step emits at most one channel, and only for a URL line, whose trimmed text it takes as
      the stream URL. */
  lemma StepEmits(st: ParserState, line: string)
    ensures Step(st, line).channels == st.channels ||
      (IsUrlLine(line) && |Step(st, line).channels| == |st.channels| + 1 &&
       Step(st, line).channels[..|st.channels|] == st.channels &&
       Step(st, line).channels[|st.channels|].streamUrl == Trim(line))
  {
  }

  lemma {:induction false} RunFromUrls(st: ParserState, lines: seq<string>)
    ensures |st.channels| <= |RunFrom(st, lines).channels|
    ensures RunFrom(st, lines).channels[..|st.channels|] == st.channels
    ensures IsSubsequence(StreamUrls(RunFrom(st, lines).channels[|st.channels|..]), UrlLines(lines))
    decreases |lines|
  {
    if lines == [] {
      assert StreamUrls(st.channels[|st.channels|..]) == [];
    } else {
      var next := Step(st, lines[0]);
      var final := RunFrom(next, lines[1..]);
      assert final == RunFrom(st, lines);
      RunFromUrls(next, lines[1..]);
      StepEmits(st, lines[0]);
      GrowingPrefix(st.channels, next.channels, final.channels);
      UrlsAfterStep(st.channels, next.channels, final.channels, lines);
    }
  }

  /** One step's emitted URL (if any) followed by the later ones is a subsequence of the URL
      lines from that step on. */
  lemma UrlsAfterStep(a: seq<Channel>, b: seq<Channel>, c: seq<Channel>, lines: seq<string>)
    requires lines != [] && |a| <= |b| <= |c| && c[|a|..] == b[|a|..] + c[|b|..]
    requires b == a || (IsUrlLine(lines[0]) && |b| == |a| + 1 && b[|a|].streamUrl == Trim(lines[0]))
    requires IsSubsequence(StreamUrls(c[|b|..]), UrlLines(lines[1..]))
    ensures IsSubsequence(StreamUrls(c[|a|..]), UrlLines(lines))
  {
    var n := |a|;
    StreamUrlsAppend(b[n..], c[|b|..]);
    var tail := StreamUrls(c[|b|..]);
    UrlLinesCons(lines);
    if b == a {
      assert b[n..] == [];
      assert StreamUrls(c[n..]) == tail;
      if IsUrlLine(lines[0]) {
        SubsequenceSkip(Trim(lines[0]), tail, UrlLines(lines[1..]));
      }
    } else {
      assert b[n..] == [b[n]];
      assert StreamUrls(c[n..]) == [Trim(lines[0])] + tail;
      SubsequenceKeep(Trim(lines[0]), tail, UrlLines(lines[1..]));
    }
  }

  lemma UrlLinesCons(lines: seq<string>)
    requires lines != []
    ensures IsUrlLine(lines[0]) ==> UrlLines(lines) == [Trim(lines[0])] + UrlLines(lines[1..])
    ensures !IsUrlLine(lines[0]) ==> UrlLines(lines) == UrlLines(lines[1..])
  {
  }

  lemma StreamUrlsAppend(a: seq<Channel>, b: seq<Channel>)
    ensures StreamUrls(a + b) == StreamUrls(a) + StreamUrls(b)
  {
  }

  /** `a`, then `b`, then `c` each extend the one before. */
  lemma GrowingPrefix(a: seq<Channel>, b: seq<Channel>, c: seq<Channel>)
    requires |a| <= |b| <= |c| && b[..|a|] == a && c[..|b|] == b
    ensures c[..|a|] == a && c[|a|..] == b[|a|..] + c[|b|..]
  {
    assert c[..|a|] == c[..|b|][..|a|];
  }

  /** Every emitted stream URL is a trimmed, non-empty line of the playlist that does not start
      with `#`, and the channels come in the order of their URL lines. */
  lemma StreamUrlsAreUrlLines(m3uContent: string)
    ensures IsSubsequence(StreamUrls(Channels(m3uContent)), UrlLines(Lines(m3uContent)))
  {
    RunFromUrls(Start, Lines(m3uContent));
    assert Channels(m3uContent)[0..] == Channels(m3uContent);
  }

  /** What the state machine keeps true of its pending line. */
  predicate PendingWellFormed(st: ParserState) {
    (st.currentExtInf.None? ==> st.currentAttributes.None?) &&
    (st.currentExtInf.Some? ==>
      var e := st.currentExtInf.value;
      e != [] && Trim(e) == e && st.currentAttributes == Some(AttributeMap(e)))
  }

  predicate NamesNonEmpty(channels: seq<Channel>) {
    forall i :: 0 <= i < |channels| ==> channels[i].name != []
  }

  lemma StepNames(st: ParserState, line: string)
    requires PendingWellFormed(st) && NamesNonEmpty(st.channels)
    ensures PendingWellFormed(Step(st, line)) && NamesNonEmpty(Step(st, line).channels)
  {
    match Classify(Trim(line))
    case ExtInf => ExtInfKeepsNames(st, line);
    case Url => UrlKeepsNames(st, line);
    case _ =>
  }

  lemma ExtInfKeepsNames(st: ParserState, line: string)
    requires PendingWellFormed(st) && NamesNonEmpty(st.channels)
    requires Classify(Trim(line)) == ExtInf
    ensures PendingWellFormed(Step(st, line)) && NamesNonEmpty(Step(st, line).channels)
  {
    var trimmed := Trim(line);
    assert Trim(trimmed) == trimmed by { TrimIdempotent(line); }
  }

  lemma UrlKeepsNames(st: ParserState, line: string)
    requires PendingWellFormed(st) && NamesNonEmpty(st.channels)
    requires Classify(Trim(line)) == Url
    ensures PendingWellFormed(Step(st, line)) && NamesNonEmpty(Step(st, line).channels)
  {
    if st.currentExtInf.Some? {
      EmitNameNonEmpty(st, Trim(line));
    }
  }

  lemma EmitNameNonEmpty(st: ParserState, url: string)
    requires PendingWellFormed(st) && NamesNonEmpty(st.channels) && st.currentExtInf.Some?
    ensures NamesNonEmpty(st.channels + [CreateChannel(st.currentExtInf.value, st.currentAttributes.GetOr(map[]), url)])
  {
    TrimmedLast(st.currentExtInf.value);
    CreatedNameNonEmpty(st.currentExtInf.value, url);
  }

  lemma {:induction false} RunFromNames(st: ParserState, lines: seq<string>)
    requires PendingWellFormed(st) && NamesNonEmpty(st.channels)
    ensures PendingWellFormed(RunFrom(st, lines)) && NamesNonEmpty(RunFrom(st, lines).channels)
    decreases |lines|
  {
    if lines != [] {
      StepNames(st, lines[0]);
      RunFromNames(Step(st, lines[0]), lines[1..]);
    }
  }

  /** No parsed channel has an empty name. */
  lemma ParsedNamesNonEmpty(m3uContent: string)
    ensures NamesNonEmpty(Channels(m3uContent))
  {
    RunFromNames(Start, Lines(m3uContent));
  }
}
