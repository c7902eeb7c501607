/**
 * Which reports the `/api/weather` handler keeps for a route (server.js:209-224,
 * 257-281). Both tests are `airports.some(airport => ...)`: a report is kept
 * when it mentions one of the route's airports, or, when it mentions none, when
 * the place named in the report (the fix of a pilot report; the area, a
 * latitude/longitude or the FIR of a SIGMET) fits the route.
 */
module Relevance {
  import opened Wrappers
  import opened Text
  import opened Scan
  import Pirep
  import Sigmet

  /** `airports.some(ap => ap.startsWith(prefix))`. */
  predicate AnyStartsWith(airports: seq<string>, prefix: string) {
    exists i :: 0 <= i < |airports| && StartsWith(airports[i], prefix)
  }

  /** Some airport of the route occurs in `line`. */
  predicate MentionsAirport(line: string, airports: seq<string>) {
    exists i :: 0 <= i < |airports| && Contains(line, airports[i])
  }

  // ---------------------------------------------------------------- pilot reports

  /** The test `some` applies to each airport of the route (server.js:210-221). */
  predicate PirepTest(line: string, airports: seq<string>, airport: string) {
    if Contains(line, airport) then true
    else
      match Exec(line, Pirep.OverAt)
      case Some(fixMatch) => AnyStartsWith(airports, Group(fixMatch, 1))
      case None => false
  }

  /** `pirepLines.filter(line => airports.some(...))` keeps `line`. */
  predicate PirepRelevant(line: string, airports: seq<string>) {
    exists i :: 0 <= i < |airports| && PirepTest(line, airports, airports[i])
  }

  /**
   * A pilot report is kept exactly when it mentions an airport of the route,
   * or its first `/OV` fix is the beginning of one of the route's airports.
   */
  lemma PirepRelevantIff(line: string, airports: seq<string>)
    ensures PirepRelevant(line, airports) <==>
      MentionsAirport(line, airports) ||
      (Exec(line, Pirep.OverAt).Some? && AnyStartsWith(airports, Group(Exec(line, Pirep.OverAt).value, 1)))
  {
    if Exec(line, Pirep.OverAt).Some? && AnyStartsWith(airports, Group(Exec(line, Pirep.OverAt).value, 1)) {
      assert PirepTest(line, airports, airports[0]);
    }
  }

  /** With no airports nothing is kept. */
  lemma PirepNoAirports(line: string)
    ensures !PirepRelevant(line, [])
  {
  }

  // ---------------------------------------------------------------- SIGMETs

  predicate IsNorthSouth(c: char) { c == 'N' || c == 'S' }

  predicate IsEastWest(c: char) { c == 'E' || c == 'W' }

  /** `[EW]\d{3,5}` at `q`: the longitude half. */
  predicate LongitudeAt(s: string, q: nat) {
    q < |s| && IsEastWest(s[q]) && Run(s, q + 1, IsDigit) >= 3
  }

  /**
   * The number of latitude digits in `[NS]\d{2,4}[EW]\d{3,5}` after the `N` or
   * `S` at `q - 1`, or 0 when there is no match: a greedy `{2,4}` tries four,
   * three, then two.
   */
  function LatitudeDigits(s: string, q: nat): nat {
    var d := Run(s, q, IsDigit);
    if d >= 4 && LongitudeAt(s, q + 4) then 4
    else if d >= 3 && LongitudeAt(s, q + 3) then 3
    else if d >= 2 && LongitudeAt(s, q + 2) then 2
    else 0
  }

  /** `[NS]\d{2,4}[EW]\d{3,5}`. */
  function LatLonAt(s: string, p: nat): Option<Match> {
    var k := LatitudeDigits(s, p + 1);
    var q := p + 2 + k;
    if p < |s| && IsNorthSouth(s[p]) && k != 0 then Some(Match(s[p..q + Min(Run(s, q, IsDigit), 5)], []))
    else None
  }

  /** A digit is not `E` or `W`, so the longitude cannot start inside the latitude digits. */
  lemma NoLongitudeInDigits(s: string, q: nat, k: nat)
    requires k < Run(s, q, IsDigit)
    ensures !LongitudeAt(s, q + k)
  {
    assert IsDigit(s[q + k]);
  }

  /** The latitude is the whole run of digits, when it is two to four long and a longitude follows. */
  lemma LatitudeDigitsIsRun(s: string, q: nat)
    ensures var d := Run(s, q, IsDigit);
      LatitudeDigits(s, q) == if 2 <= d <= 4 && LongitudeAt(s, q + d) then d else 0
  {
    var d := Run(s, q, IsDigit);
    if d >= 3 { NoLongitudeInDigits(s, q, 2); }
    if d >= 4 { NoLongitudeInDigits(s, q, 3); }
    if d >= 5 { NoLongitudeInDigits(s, q, 4); }
  }

  /**
   * A latitude/longitude starts at `p` exactly when an `N` or `S` is followed by
   * a whole run of two to four digits, an `E` or `W` and at least three digits.
   */
  lemma LatLonAtIff(s: string, p: nat)
    ensures LatLonAt(s, p).Some? <==>
      p < |s| && IsNorthSouth(s[p]) && 2 <= Run(s, p + 1, IsDigit) <= 4 && LongitudeAt(s, p + 1 + Run(s, p + 1, IsDigit))
  {
    LatitudeDigitsIsRun(s, p + 1);
  }

  /** What the test decides for an airport the SIGMET does not mention (server.js:263-279). */
  predicate SigmetPlaceTest(sigmet: string, airports: seq<string>) {
    match Exec(sigmet, Sigmet.AreaAt)
    case Some(areaMatch) => AnyStartsWith(airports, Group(areaMatch, 1))
    case None =>
      if GlobalMatch(sigmet, LatLonAt).Some? then true
      else
        match Exec(sigmet, Sigmet.FirAt)
        case Some(firMatch) => AnyStartsWith(airports, Group(firMatch, 1))
        case None => false
  }

  /** The test `some` applies to each airport of the route (server.js:259-280). */
  predicate SigmetTest(sigmet: string, airports: seq<string>, airport: string) {
    if Contains(sigmet, airport) then true else SigmetPlaceTest(sigmet, airports)
  }

  /** `[...domesticSigmets, ...intlSigmets].filter(sigmet => airports.some(...))` keeps `sigmet`. */
  predicate SigmetRelevant(sigmet: string, airports: seq<string>) {
    exists i :: 0 <= i < |airports| && SigmetTest(sigmet, airports, airports[i])
  }

  /**
   * The order of the SIGMET checks: a mentioned airport keeps the SIGMET; else
   * an `AREA` decides alone, by whether it begins one of the route's airports;
   * else any latitude/longitude keeps it; else a FIR decides, by whether it
   * begins one of the route's airports; else it is dropped. A missing `AREA`
   * is the only way to reach the latitude/longitude and FIR checks.
   */
  lemma SigmetLadder(sigmet: string, airports: seq<string>)
    ensures MentionsAirport(sigmet, airports) ==> SigmetRelevant(sigmet, airports)
    ensures !MentionsAirport(sigmet, airports) && Exec(sigmet, Sigmet.AreaAt).Some? ==>
      (SigmetRelevant(sigmet, airports) <==> AnyStartsWith(airports, Group(Exec(sigmet, Sigmet.AreaAt).value, 1)))
    ensures !MentionsAirport(sigmet, airports) && Exec(sigmet, Sigmet.AreaAt).None? && Exec(sigmet, LatLonAt).Some? ==>
      (SigmetRelevant(sigmet, airports) <==> airports != [])
    ensures
      && !MentionsAirport(sigmet, airports) && Exec(sigmet, Sigmet.AreaAt).None? && Exec(sigmet, LatLonAt).None?
      && Exec(sigmet, Sigmet.FirAt).Some?
      ==> (SigmetRelevant(sigmet, airports) <==> AnyStartsWith(airports, Group(Exec(sigmet, Sigmet.FirAt).value, 1)))
    ensures
      && !MentionsAirport(sigmet, airports) && Exec(sigmet, Sigmet.AreaAt).None? && Exec(sigmet, LatLonAt).None?
      && Exec(sigmet, Sigmet.FirAt).None?
      ==> !SigmetRelevant(sigmet, airports)
  {
    GlobalMatchNoneIff(sigmet, LatLonAt);
    SigmetRelevantIff(sigmet, airports);
  }

  /** A SIGMET is kept exactly when it mentions an airport, or the route has airports and the place test passes. */
  lemma SigmetRelevantIff(sigmet: string, airports: seq<string>)
    ensures SigmetRelevant(sigmet, airports) <==>
      MentionsAirport(sigmet, airports) || (airports != [] && SigmetPlaceTest(sigmet, airports))
  {
    if airports != [] && SigmetPlaceTest(sigmet, airports) {
      assert SigmetTest(sigmet, airports, airports[0]);
    }
  }

  /** With no airports nothing is kept, even a SIGMET with a latitude/longitude. */
  lemma SigmetNoAirports(sigmet: string)
    ensures !SigmetRelevant(sigmet, [])
  {
  }
}
