/** `IPTVRepository.fetchChannels`: tries the requested playlist and then the built-in ones, in
    order, and parses the first text that loads. The network fetch and the local content reader are
    parameters of the model. */
module IPTVRepository {
  import opened Wrappers
  import opened Text
  import opened Sequences
  import opened Model
  import M3UParser

  /** The primary GitHub Pages playlist and its raw GitHub fallback. */
  const PLAYLIST_URLS: seq<string> := [
    "https://iptv-org.github.io/iptv/index.m3u",
    "https://raw.githubusercontent.com/iptv-org/iptv/master/index.m3u"
  ]

  /** The message of the exception thrown when the content reader yields no stream. */
  const UNABLE_TO_OPEN: string := "Unable to open playlist"

  /** The message reported when no candidate was tried at all. */
  const FAILED_TO_LOAD: string := "Failed to load playlist"

  /** `candidates.distinct()`: the requested URL, unless blank, then the built-in playlists,
      each at its first occurrence. */
  function Candidates(url: string): seq<string> {
    Distinct(if !IsBlank(url) then [url] + PLAYLIST_URLS else PLAYLIST_URLS)
  }

  function DiffersFrom(url: string): string -> bool {
    (u: string) => u != url
  }

  /** The built-in playlists are two different URLs. */
  lemma BuiltInDistinct()
    ensures PLAYLIST_URLS[0] != PLAYLIST_URLS[1]
    ensures Distinct(PLAYLIST_URLS) == PLAYLIST_URLS
  {
    var u0 := PLAYLIST_URLS[0];
    var u1 := PLAYLIST_URLS[1];
    assert |u0| != |u1|;
    DistinctSnoc([], u0);
    assert [] + [u0] == [u0];
    DistinctSnoc([u0], u1);
    assert [u0] + [u1] == PLAYLIST_URLS;
  }

  /** A blank request tries the built-in playlists, in order. */
  lemma CandidatesBlank(url: string)
    requires IsBlank(url)
    ensures Candidates(url) == PLAYLIST_URLS
  {
    BuiltInDistinct();
  }

  /** The built-in playlists other than `url`, in order. */
  function OtherBuiltIns(url: string): seq<string> {
    if url == PLAYLIST_URLS[0] then [PLAYLIST_URLS[1]]
    else if url == PLAYLIST_URLS[1] then [PLAYLIST_URLS[0]]
    else PLAYLIST_URLS
  }

  lemma DistinctRequested(url: string)
    ensures Distinct([url] + PLAYLIST_URLS) == [url] + OtherBuiltIns(url)
  {
    BuiltInDistinct();
    assert [url] + PLAYLIST_URLS == [url, PLAYLIST_URLS[0], PLAYLIST_URLS[1]];
    DistinctOfThree(url, PLAYLIST_URLS[0], PLAYLIST_URLS[1]);
  }

  lemma FilterBuiltIns(url: string)
    ensures Filter(PLAYLIST_URLS, DiffersFrom(url)) == OtherBuiltIns(url)
  {
    var u0 := PLAYLIST_URLS[0];
    var u1 := PLAYLIST_URLS[1];
    BuiltInDistinct();
    assert PLAYLIST_URLS[1..] == [u1] && [u1][1..] == [];
  }

  /** Any other request is tried first, then the built-in playlists that differ from it. */
  lemma CandidatesRequested(url: string)
    requires !IsBlank(url)
    ensures Candidates(url) == [url] + Filter(PLAYLIST_URLS, DiffersFrom(url))
  {
    DistinctRequested(url);
    FilterBuiltIns(url);
  }

  /** There is always at least one candidate. */
  lemma CandidatesNonEmpty(url: string)
    ensures Candidates(url) != []
  {
    var s := if !IsBlank(url) then [url] + PLAYLIST_URLS else PLAYLIST_URLS;
    assert s[0] in Candidates(url);
  }

  /** `runCatching { ... }` around the fetch of one candidate. */
  function Load(candidate: string, network: string -> Result<string>,
                openLocal: string -> Result<Option<string>>): Result<string>
  {
    if StartsWithIgnoreCase(candidate, "http") then network(candidate)
    else match openLocal(candidate)
      case Failure(e) => Failure(e)
      case Success(None) => Failure(UNABLE_TO_OPEN)
      case Success(Some(text)) => Success(text)
  }

  /** A candidate starting with `http`, in any case, goes to the network; any other to the local
      content reader, where a missing stream is an error. */
  lemma LoadRoutes(candidate: string, network: string -> Result<string>,
                   openLocal: string -> Result<Option<string>>)
    ensures StartsWithIgnoreCase(candidate, "http") ==> Load(candidate, network, openLocal) == network(candidate)
    ensures !StartsWithIgnoreCase(candidate, "http") ==>
      Load(candidate, network, openLocal) ==
        match openLocal(candidate)
        case Success(Some(text)) => Success(text)
        case Success(None) => Failure(UNABLE_TO_OPEN)
        case Failure(e) => Failure(e)
  {
  }

  /** The text of the first of `cands` that loads, or the error of the last one tried; with no
      candidate, `lastError`, failing that the built-in message. */
  function FirstLoaded(cands: seq<string>, network: string -> Result<string>,
                       openLocal: string -> Result<Option<string>>, lastError: Option<string>): Result<string>
  {
    if cands == [] then Failure(lastError.GetOr(FAILED_TO_LOAD))
    else match Load(cands[0], network, openLocal)
      case Success(text) => Success(text)
      case Failure(e) => FirstLoaded(cands[1..], network, openLocal, Some(e))
  }

  /** What `fetchChannels(url)` emits: the parse of the first text that loads, or the failure. */
  function Fetch(url: string, network: string -> Result<string>,
                 openLocal: string -> Result<Option<string>>): Result<seq<Channel>>
  {
    match FirstLoaded(Candidates(url), network, openLocal, None)
    case Success(text) => Success(M3UParser.Channels(text))
    case Failure(e) => Failure(e)
  }

  /** One turn of the loop of `fetchChannels`: the candidate is loaded, and either its text is
      the result or the search goes on with its error as the last one. */
  lemma FirstLoadedStep(cands: seq<string>, k: nat, network: string -> Result<string>,
                        openLocal: string -> Result<Option<string>>, lastError: Option<string>)
    requires k < |cands|
    ensures FirstLoaded(cands[k..], network, openLocal, lastError) ==
      match Load(cands[k], network, openLocal)
      case Success(text) => Success(text)
      case Failure(e) => FirstLoaded(cands[k + 1..], network, openLocal, Some(e))
  {
    assert cands[k..][1..] == cands[k + 1..];
  }

  /** The loop of `fetchChannels` up to its first success: tries the candidates in order and keeps
      the last error. `attempted` records the candidates tried, in order. */
  method TryCandidates(cands: seq<string>, network: string -> Result<string>,
                       openLocal: string -> Result<Option<string>>)
    returns (loaded: Result<string>, ghost attempted: seq<string>)
    requires cands != []
    ensures loaded == FirstLoaded(cands, network, openLocal, None)
    ensures 0 < |attempted| <= |cands| && attempted == cands[..|attempted|]
    ensures forall j :: 0 <= j < |attempted| - 1 ==> Load(attempted[j], network, openLocal).Failure?
    ensures loaded.Success? <==> Load(attempted[|attempted| - 1], network, openLocal).Success?
    ensures loaded.Failure? ==> attempted == cands
  {
    var lastError: Option<string> := None;
    attempted := [];
    for k := 0 to |cands|
      invariant FirstLoaded(cands[k..], network, openLocal, lastError) == FirstLoaded(cands, network, openLocal, None)
      invariant attempted == cands[..k]
      invariant forall j :: 0 <= j < k ==> Load(cands[j], network, openLocal).Failure?
    {
      FirstLoadedStep(cands, k, network, openLocal, lastError);
      var result := Load(cands[k], network, openLocal);
      attempted := attempted + [cands[k]];
      assert attempted == cands[..k + 1];
      if result.Success? {
        loaded := result;
        return;
      }
      lastError := Some(result.error);
    }
    assert attempted == cands;
    assert cands[|cands|..] == [];
    loaded := Failure(lastError.GetOr(FAILED_TO_LOAD));
  }

  /** `fetchChannels`: the candidates are tried in order and the first text that loads is
      parsed; otherwise the last error is reported. */
  method FetchChannels(url: string, network: string -> Result<string>,
                       openLocal: string -> Result<Option<string>>)
    returns (result: Result<seq<Channel>>, ghost attempted: seq<string>)
    ensures result == Fetch(url, network, openLocal)
    ensures 0 < |attempted| <= |Candidates(url)| && attempted == Candidates(url)[..|attempted|]
    ensures forall j :: 0 <= j < |attempted| - 1 ==> Load(attempted[j], network, openLocal).Failure?
    ensures result.Success? <==> Load(attempted[|attempted| - 1], network, openLocal).Success?
    ensures result.Failure? ==> attempted == Candidates(url)
  {
    var cands := Candidates(url);
    CandidatesNonEmpty(url);
    var loaded;
    loaded, attempted := TryCandidates(cands, network, openLocal);
    match loaded
    case Success(text) =>
      var channels := M3UParser.Parse(text);
      result := Success(channels);
    case Failure(e) =>
      result := Failure(e);
  }

  /** Some candidate loads exactly when the search finds a text. */
  lemma {:induction false} FirstLoadedSucceedsIff(cands: seq<string>, network: string -> Result<string>,
                                                  openLocal: string -> Result<Option<string>>, lastError: Option<string>)
    ensures FirstLoaded(cands, network, openLocal, lastError).Success? <==>
      exists i :: 0 <= i < |cands| && Load(cands[i], network, openLocal).Success?
  {
    if cands != [] {
      var next := if Load(cands[0], network, openLocal).Failure? then Some(Load(cands[0], network, openLocal).error) else lastError;
      FirstLoadedSucceedsIff(cands[1..], network, openLocal, next);
      assert forall i :: 1 <= i < |cands| ==> cands[i] == cands[1..][i - 1];
    }
  }

  /** When candidate `i` is the first that loads, its text is found. */
  lemma {:induction false} FirstLoadedIsFirst(cands: seq<string>, network: string -> Result<string>,
                                              openLocal: string -> Result<Option<string>>,
                                              lastError: Option<string>, i: nat)
    requires i < |cands| && Load(cands[i], network, openLocal).Success?
    requires forall j :: 0 <= j < i ==> Load(cands[j], network, openLocal).Failure?
    ensures FirstLoaded(cands, network, openLocal, lastError) == Success(Load(cands[i], network, openLocal).value)
  {
    if i > 0 {
      FirstLoadedIsFirst(cands[1..], network, openLocal, Some(Load(cands[0], network, openLocal).error), i - 1);
    }
  }

  /** When every candidate fails, the failure carries the error of the last one. */
  lemma {:induction false} FirstLoadedLastError(cands: seq<string>, network: string -> Result<string>,
                                                openLocal: string -> Result<Option<string>>, lastError: Option<string>)
    requires cands != []
    requires forall j :: 0 <= j < |cands| ==> Load(cands[j], network, openLocal).Failure?
    ensures FirstLoaded(cands, network, openLocal, lastError) ==
      Failure(Load(cands[|cands| - 1], network, openLocal).error)
  {
    if |cands| > 1 {
      FirstLoadedLastError(cands[1..], network, openLocal, Some(Load(cands[0], network, openLocal).error));
    }
  }

  /** The fetch succeeds exactly when some candidate loads. */
  lemma FetchSucceedsIff(url: string, network: string -> Result<string>,
                         openLocal: string -> Result<Option<string>>)
    ensures Fetch(url, network, openLocal).Success? <==>
      exists i :: 0 <= i < |Candidates(url)| && Load(Candidates(url)[i], network, openLocal).Success?
  {
    FirstLoadedSucceedsIff(Candidates(url), network, openLocal, None);
  }

  /** When candidate `i` is the first that loads, the channels are the parse of its text. */
  lemma FetchFirstSuccess(url: string, network: string -> Result<string>,
                          openLocal: string -> Result<Option<string>>, i: nat)
    requires i < |Candidates(url)| && Load(Candidates(url)[i], network, openLocal).Success?
    requires forall j :: 0 <= j < i ==> Load(Candidates(url)[j], network, openLocal).Failure?
    ensures Fetch(url, network, openLocal) ==
      Success(M3UParser.Channels(Load(Candidates(url)[i], network, openLocal).value))
  {
    FirstLoadedIsFirst(Candidates(url), network, openLocal, None, i);
  }

  /** There is always a candidate, so a failed fetch always reports the error of the last
      candidate: the built-in message `Failed to load playlist` is never emitted. */
  lemma FetchFailureHasCause(url: string, network: string -> Result<string>,
                             openLocal: string -> Result<Option<string>>)
    ensures Fetch(url, network, openLocal).Failure? ==>
      var last := Load(Candidates(url)[|Candidates(url)| - 1], network, openLocal);
      last.Failure? && Fetch(url, network, openLocal) == Failure(last.error)
  {
    var cands := Candidates(url);
    CandidatesNonEmpty(url);
    if Fetch(url, network, openLocal).Failure? {
      FirstLoadedSucceedsIff(cands, network, openLocal, None);
      FirstLoadedLastError(cands, network, openLocal, None);
    }
  }
}
