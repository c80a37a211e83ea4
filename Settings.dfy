/** `SettingsStore`: the app's switches, the parental PIN, the hidden channels and the last played
    channel, as typed preference keys. */
module Settings {
  import opened Wrappers
  import opened Preferences

  const AUTOPLAY_LAST_KEY: string := "autoplay_last"
  const USE_EXTERNAL_PLAYER_KEY: string := "use_external_player"
  const START_ON_BOOT_KEY: string := "start_on_boot"
  const PARENTAL_ENABLED_KEY: string := "parental_enabled"
  const PARENTAL_PIN_KEY: string := "parental_pin"
  const SHOW_HIDDEN_KEY: string := "show_hidden_channels"
  const HIDDEN_CHANNELS_KEY: string := "hidden_channels"
  const DISCLAIMER_ACCEPTED_KEY: string := "disclaimer_accepted"
  const LAST_NAME_KEY: string := "last_played_name"
  const LAST_URL_KEY: string := "last_played_url"
  const LAST_LOGO_KEY: string := "last_played_logo"

  /** The channel to resume; the logo is optional. */
  datatype LastPlayed = LastPlayed(name: string, url: string, logo: Option<string>)

  // ---------------------------------------------------------------------------------------------
  // The flows: projections of the preferences
  // ---------------------------------------------------------------------------------------------

  /** `hiddenChannelsFlow`. */
  function HiddenChannels(p: Prefs): set<string> {
    StringSet(p, HIDDEN_CHANNELS_KEY)
  }

  /** `lastPlayedFlow`: present exactly when both the url and the name are stored; the logo is
      whatever is stored under its key. */
  function LastPlayedOf(p: Prefs): (r: Option<LastPlayed>)
    ensures r.Some? <==> LAST_URL_KEY in p.strings && LAST_NAME_KEY in p.strings
    ensures r.Some? ==> r.value.name == p.strings[LAST_NAME_KEY] && r.value.url == p.strings[LAST_URL_KEY]
    ensures r.Some? ==> (r.value.logo.Some? <==> LAST_LOGO_KEY in p.strings)
    ensures r.Some? && r.value.logo.Some? ==> r.value.logo.value == p.strings[LAST_LOGO_KEY]
  {
    var url := Get(p.strings, LAST_URL_KEY);
    var name := Get(p.strings, LAST_NAME_KEY);
    var logo := Get(p.strings, LAST_LOGO_KEY);
    if url.Some? && name.Some? then Some(LastPlayed(name.value, url.value, logo)) else None
  }

  /** `getParentalPin`. */
  function ParentalPin(p: Prefs): Option<string> {
    Get(p.strings, PARENTAL_PIN_KEY)
  }

  /** The boolean keys; each reads as false until written. */
  predicate IsFlagKey(key: string) {
    key == AUTOPLAY_LAST_KEY || key == USE_EXTERNAL_PLAYER_KEY || key == START_ON_BOOT_KEY ||
    key == PARENTAL_ENABLED_KEY || key == SHOW_HIDDEN_KEY || key == DISCLAIMER_ACCEPTED_KEY
  }

  /** A fresh store reads as all switches off, nothing hidden, no PIN and nothing last played. */
  lemma Defaults(key: string)
    requires IsFlagKey(key)
    ensures !Flag(EMPTY, key)
    ensures HiddenChannels(EMPTY) == {}
    ensures ParentalPin(EMPTY) == None && LastPlayedOf(EMPTY) == None
  {
  }

  // ---------------------------------------------------------------------------------------------
  // The `edit` blocks
  // ---------------------------------------------------------------------------------------------

  /** `it[key] = enabled` for a boolean key. */
  function WithFlag(p: Prefs, key: string, enabled: bool): (r: Prefs)
    ensures Flag(r, key) == enabled
    ensures forall k :: k != key ==> Flag(r, k) == Flag(p, k)
    ensures r.strings == p.strings && r.stringSets == p.stringSets
  {
    p.(bools := p.bools[key := enabled])
  }

  /** The `edit` of `setLastPlayed(name, url, logo)`: the name and url are written, the logo is
      written when present and removed when null. */
  function WithLastPlayed(p: Prefs, name: string, url: string, logo: Option<string>): (r: Prefs)
    ensures LastPlayedOf(r) == Some(LastPlayed(name, url, logo))
    ensures r.strings - {LAST_NAME_KEY, LAST_URL_KEY, LAST_LOGO_KEY} ==
      p.strings - {LAST_NAME_KEY, LAST_URL_KEY, LAST_LOGO_KEY}
    ensures r.bools == p.bools && r.stringSets == p.stringSets
  {
    var s := p.strings[LAST_NAME_KEY := name][LAST_URL_KEY := url];
    p.(strings := if logo.Some? then s[LAST_LOGO_KEY := logo.value] else s - {LAST_LOGO_KEY})
  }

  /** The `edit` of `setParental(enabled, pin)`: the switch is written, the PIN is written when
      present and removed when null. */
  function WithParental(p: Prefs, enabled: bool, pin: Option<string>): (r: Prefs)
    ensures Flag(r, PARENTAL_ENABLED_KEY) == enabled && ParentalPin(r) == pin
    ensures forall k :: k != PARENTAL_ENABLED_KEY ==> Flag(r, k) == Flag(p, k)
    ensures r.strings - {PARENTAL_PIN_KEY} == p.strings - {PARENTAL_PIN_KEY}
    ensures r.stringSets == p.stringSets
  {
    var withFlag := p.(bools := p.bools[PARENTAL_ENABLED_KEY := enabled]);
    withFlag.(strings := if pin.Some? then p.strings[PARENTAL_PIN_KEY := pin.value] else p.strings - {PARENTAL_PIN_KEY})
  }

  /** The `edit` of `hideChannel(url)`: the old hidden set plus `url`. */
  function WithHidden(p: Prefs, url: string): (r: Prefs)
    ensures HiddenChannels(r) == HiddenChannels(p) + {url}
    ensures r.bools == p.bools && r.strings == p.strings
    ensures r.stringSets - {HIDDEN_CHANNELS_KEY} == p.stringSets - {HIDDEN_CHANNELS_KEY}
  {
    p.(stringSets := p.stringSets[HIDDEN_CHANNELS_KEY := HiddenChannels(p) + {url}])
  }

  /** Hiding a channel twice is hiding it once. */
  lemma HideIdempotent(p: Prefs, url: string)
    ensures WithHidden(WithHidden(p, url), url) == WithHidden(p, url)
  {
    assert HiddenChannels(p) + {url} + {url} == HiddenChannels(p) + {url};
  }

  /** The `edit` of `unhideAll`. */
  function WithNoneHidden(p: Prefs): (r: Prefs)
    ensures HiddenChannels(r) == {}
    ensures r.bools == p.bools && r.strings == p.strings
    ensures r.stringSets - {HIDDEN_CHANNELS_KEY} == p.stringSets - {HIDDEN_CHANNELS_KEY}
  {
    p.(stringSets := p.stringSets[HIDDEN_CHANNELS_KEY := {}])
  }

  class SettingsStore {
    var prefs: Prefs

    constructor()
      ensures prefs == EMPTY
    {
      prefs := EMPTY;
    }

    method SetAutoplayLast(enabled: bool)
      modifies this
      ensures prefs == WithFlag(old(prefs), AUTOPLAY_LAST_KEY, enabled)
    {
      prefs := prefs.(bools := prefs.bools[AUTOPLAY_LAST_KEY := enabled]);
    }

    method SetUseExternalPlayer(enabled: bool)
      modifies this
      ensures prefs == WithFlag(old(prefs), USE_EXTERNAL_PLAYER_KEY, enabled)
    {
      prefs := prefs.(bools := prefs.bools[USE_EXTERNAL_PLAYER_KEY := enabled]);
    }

    method SetLastPlayed(name: string, url: string, logo: Option<string>)
      modifies this
      ensures prefs == WithLastPlayed(old(prefs), name, url, logo)
    {
      var strings := prefs.strings[LAST_NAME_KEY := name];
      strings := strings[LAST_URL_KEY := url];
      if logo.Some? {
        strings := strings[LAST_LOGO_KEY := logo.value];
      } else {
        strings := strings - {LAST_LOGO_KEY};
      }
      prefs := prefs.(strings := strings);
    }

    method SetStartOnBoot(enabled: bool)
      modifies this
      ensures prefs == WithFlag(old(prefs), START_ON_BOOT_KEY, enabled)
    {
      prefs := prefs.(bools := prefs.bools[START_ON_BOOT_KEY := enabled]);
    }

    method SetParental(enabled: bool, pin: Option<string>)
      modifies this
      ensures prefs == WithParental(old(prefs), enabled, pin)
    {
      var bools := prefs.bools[PARENTAL_ENABLED_KEY := enabled];
      var strings := prefs.strings;
      if pin.Some? {
        strings := strings[PARENTAL_PIN_KEY := pin.value];
      } else {
        strings := strings - {PARENTAL_PIN_KEY};
      }
      prefs := prefs.(bools := bools, strings := strings);
    }

    method GetParentalPin() returns (pin: Option<string>)
      ensures pin == ParentalPin(prefs)
      ensures pin.Some? <==> PARENTAL_PIN_KEY in prefs.strings
    {
      pin := if PARENTAL_PIN_KEY in prefs.strings then Some(prefs.strings[PARENTAL_PIN_KEY]) else None;
    }

    method SetShowHidden(enabled: bool)
      modifies this
      ensures prefs == WithFlag(old(prefs), SHOW_HIDDEN_KEY, enabled)
    {
      prefs := prefs.(bools := prefs.bools[SHOW_HIDDEN_KEY := enabled]);
    }

    method HideChannel(url: string)
      modifies this
      ensures prefs == WithHidden(old(prefs), url)
    {
      var hidden := HiddenChannels(prefs);
      prefs := prefs.(stringSets := prefs.stringSets[HIDDEN_CHANNELS_KEY := hidden + {url}]);
    }

    method UnhideAll()
      modifies this
      ensures prefs == WithNoneHidden(old(prefs))
    {
      prefs := prefs.(stringSets := prefs.stringSets[HIDDEN_CHANNELS_KEY := {}]);
    }

    method AcceptDisclaimer()
      modifies this
      ensures prefs == WithFlag(old(prefs), DISCLAIMER_ACCEPTED_KEY, true)
    {
      prefs := prefs.(bools := prefs.bools[DISCLAIMER_ACCEPTED_KEY := true]);
    }
  }
}
