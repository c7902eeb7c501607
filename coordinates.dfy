/**
 * The client's `getAirportCoordinates` (script.js:532-587): the answer comes
 * from the module-level cache, else from the airport API when a key is
 * configured, else from the static airport table; only positions found by the
 * API are written to the cache.
 */
module Coordinates {
  import opened Wrappers

  /** `{ lat, lng, name }`: the numbers are kept as they come (`parseFloat` is not part of this model). */
  datatype Place = Place(lat: real, lng: real, name: string)

  /** How the API request ends: a first airport in `data.response`, an empty response, or an error (thrown or `data.error`). */
  datatype Lookup = Found(place: Place) | NotFound | Failed

  /** The answer, and the cache afterwards. */
  datatype Outcome = Outcome(result: Option<Place>, cache: map<string, Place>)

  /** The static table's entry, or `null`: every fallback of script.js:547-549, 572-576 and 580-585. */
  function TableEntry(table: map<string, Place>, code: string): Option<Place> {
    if code in table then Some(table[code]) else None
  }

  /**
   * What one call decides, given the cache before it, whether an API key is
   * configured, the static table and what the API would answer.
   */
  function Decide(cache: map<string, Place>, code: string, hasKey: bool, table: map<string, Place>, lookup: Lookup): Outcome {
    if code == "" then Outcome(None, cache)
    else if code in cache then Outcome(Some(cache[code]), cache)
    else if hasKey && lookup.Found? then Outcome(Some(lookup.place), cache[code := lookup.place])
    else Outcome(TableEntry(table, code), cache)
  }

  /** The module-level `airportCoordinatesCache`. */
  class CoordinateCache {
    var cache: map<string, Place>

    constructor()
      ensures cache == map[]
    {
      cache := map[];
    }

    /** `getAirportCoordinates(airportCode)`. */
    method GetAirportCoordinates(code: string, hasKey: bool, table: map<string, Place>, lookup: Lookup)
      returns (result: Option<Place>)
      modifies this
      ensures Outcome(result, cache) == Decide(old(cache), code, hasKey, table, lookup)
    {
      if code == "" {
        return None;
      }
      if code in cache {
        return Some(cache[code]);
      }
      if !hasKey {
        return TableEntry(table, code);
      }
      match lookup
      case Found(place) =>
        cache := cache[code := place];
        result := Some(place);
      case NotFound =>
        result := TableEntry(table, code);
      case Failed =>
        result := TableEntry(table, code);
    }
  }

  /** An empty code gives `null` and changes nothing. */
  lemma EmptyCode(cache: map<string, Place>, hasKey: bool, table: map<string, Place>, lookup: Lookup)
    ensures Decide(cache, "", hasKey, table, lookup) == Outcome(None, cache)
  {
  }

  /** A cache hit returns the cached place, changes nothing, and consults neither the API nor the table. */
  lemma CacheHit(cache: map<string, Place>, code: string, hasKey: bool, table: map<string, Place>, lookup: Lookup,
                 otherKey: bool, otherTable: map<string, Place>, otherLookup: Lookup)
    requires code != "" && code in cache
    ensures Decide(cache, code, hasKey, table, lookup) == Outcome(Some(cache[code]), cache)
    ensures Decide(cache, code, hasKey, table, lookup) == Decide(cache, code, otherKey, otherTable, otherLookup)
  {
  }

  /**
   * Only a position the API found is written, under its own code; every entry
   * already in the cache stays as it was.
   */
  lemma OnlyFoundIsCached(cache: map<string, Place>, code: string, hasKey: bool, table: map<string, Place>, lookup: Lookup)
    ensures var after := Decide(cache, code, hasKey, table, lookup).cache;
      && (after == cache || (hasKey && lookup.Found? && code != "" && code !in cache && after == cache[code := lookup.place]))
      && (forall k :: k in cache ==> k in after && after[k] == cache[k])
      && after.Keys <= cache.Keys + {code}
  {
  }

  /** Without a key, or when the API finds nothing or fails, a code not in the cache is looked up in the table. */
  lemma FallsBackToTable(cache: map<string, Place>, code: string, hasKey: bool, table: map<string, Place>, lookup: Lookup)
    requires code != "" && code !in cache
    requires !hasKey || !lookup.Found?
    ensures Decide(cache, code, hasKey, table, lookup) == Outcome(TableEntry(table, code), cache)
  {
  }

  /** Every place returned comes from the cache, the API or the table. */
  lemma ResultSource(cache: map<string, Place>, code: string, hasKey: bool, table: map<string, Place>, lookup: Lookup)
    ensures var r := Decide(cache, code, hasKey, table, lookup).result;
      r.Some? ==>
        || (code in cache && r.value == cache[code])
        || (hasKey && lookup == Found(r.value))
        || (code in table && r.value == table[code])
  {
  }

  /**
   * Once the API has found a code, every later call for it answers the same
   * place from the cache, whatever the key, table or API say then.
   */
  lemma FoundIsRemembered(cache: map<string, Place>, code: string, table: map<string, Place>, place: Place,
                          hasKey: bool, table': map<string, Place>, lookup': Lookup)
    requires code != "" && code !in cache
    ensures var first := Decide(cache, code, true, table, Found(place));
      && first.result == Some(place)
      && Decide(first.cache, code, hasKey, table', lookup') == Outcome(Some(place), first.cache)
  {
  }

  /** Table fallbacks are not remembered: with the table changed, the next call sees the new table. */
  lemma FallbackNotRemembered(cache: map<string, Place>, code: string, table: map<string, Place>, lookup: Lookup,
                              table': map<string, Place>)
    requires code != "" && code !in cache && !lookup.Found?
    ensures var first := Decide(cache, code, true, table, lookup);
      && first.cache == cache
      && Decide(first.cache, code, true, table', lookup).result == TableEntry(table', code)
  {
  }
}
