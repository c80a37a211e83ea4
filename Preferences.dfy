/** A DataStore `Preferences` snapshot held in memory: one key-to-value map per value type the app
    stores. A key missing from its map is an unset preference. */
module Preferences {
  import opened Wrappers

  datatype Prefs = Prefs(
    bools: map<string, bool>,
    strings: map<string, string>,
    stringSets: map<string, set<string>>)

  /** A freshly created store: nothing is set. */
  const EMPTY: Prefs := Prefs(map[], map[], map[])

  /** `prefs[key] ?: false` for a boolean key: on exactly when stored as true. */
  function Flag(p: Prefs, key: string): (on: bool)
    ensures on <==> key in p.bools && p.bools[key]
  {
    Get(p.bools, key).GetOr(false)
  }

  /** `prefs[key] ?: emptySet()` for a string-set key. */
  function StringSet(p: Prefs, key: string): (s: set<string>)
    ensures key !in p.stringSets ==> s == {}
    ensures key in p.stringSets ==> s == p.stringSets[key]
  {
    Get(p.stringSets, key).GetOr({})
  }
}
