/**
 * The client's `parseFlightPlan` (script.js:133-162): a route `CODE,ALT,CODE,ALT,...`
 * becomes a list of waypoints, or the error the function throws. Each code is
 * trimmed and upper-cased and must then be 3 or 4 capital letters; each
 * altitude is `parseInt` of the trimmed token and must lie in [0, 60000]. The
 * pairs are checked left to right, the code of a pair before its altitude.
 */
module FlightPlan {
  import opened Wrappers
  import opened Text
  import opened JsInt

  datatype Waypoint = Waypoint(icao: string, altitude: int)

  /** The three errors `parseFlightPlan` throws; `InvalidAltitude` carries the untrimmed token. */
  datatype PlanError = FormatError | InvalidAirportCode(code: string) | InvalidAltitude(raw: string)

  /** The message of the thrown `Error`. */
  function Message(e: PlanError): string {
    match e
    case FormatError => "Invalid flight plan format. Must contain pairs of airport codes and altitudes."
    case InvalidAirportCode(code) => "Invalid airport code: " + code
    case InvalidAltitude(raw) => "Invalid altitude: " + raw
  }

  /** `/^[A-Z]{3,4}$/.test(s)`; the empty string fails it, so the `!icao` test adds nothing. */
  predicate IsAirportCode(s: string) { (|s| == 3 || |s| == 4) && AllUpper(s) }

  /** An altitude `parseInt` read and the range check accepts. */
  predicate IsAltitude(altitude: Option<int>) {
    altitude.Some? && 0 <= altitude.value <= 60000
  }

  /** The two checks of one loop iteration, the code first. */
  function CheckPair(codeToken: string, altitudeToken: string): (r: Result<Waypoint, PlanError>)
  {
    var icao := ToUpper(Trim(codeToken));
    var altitude := ParseInt(Trim(altitudeToken));
    if !IsAirportCode(icao) then Failure(InvalidAirportCode(icao))
    else if !IsAltitude(altitude) then Failure(InvalidAltitude(altitudeToken))
    else Success(Waypoint(icao, altitude.value))
  }

  /** The waypoints `ws` in front of a later result, or its error. */
  function Prepend(ws: seq<Waypoint>, r: Result<seq<Waypoint>, PlanError>): Result<seq<Waypoint>, PlanError> {
    match r
    case Success(rest) => Success(ws + rest)
    case Failure(e) => Failure(e)
  }

  /** The pairs of an even list of tokens checked in order with `check`; the first failure wins. */
  function PairsWith(parts: seq<string>, check: (string, string) -> Result<Waypoint, PlanError>): Result<seq<Waypoint>, PlanError>
    requires |parts| % 2 == 0
  {
    if parts == [] then Success([])
    else
      match check(parts[0], parts[1])
      case Failure(e) => Failure(e)
      case Success(w) => Prepend([w], PairsWith(parts[2..], check))
  }

  /** What `parseFlightPlan` returns for the tokens of the plan, or what it throws. */
  function PlanOf(parts: seq<string>): Result<seq<Waypoint>, PlanError> {
    if |parts| % 2 != 0 then Failure(FormatError) else PairsWith(parts, CheckPair)
  }

  /** `parseFlightPlan(flightPlan)`. */
  method ParseFlightPlan(flightPlan: string) returns (r: Result<seq<Waypoint>, PlanError>)
    ensures r == PlanOf(Split(flightPlan, ','))
  {
    var parts := Split(flightPlan, ',');
    if |parts| % 2 != 0 {
      return Failure(FormatError);
    }
    r := CheckPairs(parts, CheckPair);
  }

  /** The loop over the pairs: each pair is checked with `check`, the first failure is thrown. */
  method CheckPairs(parts: seq<string>, check: (string, string) -> Result<Waypoint, PlanError>) returns (r: Result<seq<Waypoint>, PlanError>)
    requires |parts| % 2 == 0
    ensures r == PairsWith(parts, check)
  {
    var waypoints: seq<Waypoint> := [];
    ghost var pairs := |parts| / 2;
    assert |parts| == 2 * pairs;
    var i := 0;
    while i < |parts|
      invariant 0 <= i <= |parts| && i == 2 * |waypoints| && |waypoints| <= pairs
      invariant forall k :: 0 <= k < |waypoints| ==> check(parts[2 * k], parts[2 * k + 1]) == Success(waypoints[k])
    {
      var pair := check(parts[i], parts[i + 1]);
      if pair.Failure? {
        PairsFailAt(parts, check, |waypoints|);
        return Failure(pair.error);
      }
      waypoints := waypoints + [pair.value];
      i := i + 2;
    }
    PairsAllPass(parts, check, waypoints);
    return Success(waypoints);
  }

  /** When every pair passes, the result is the list of their waypoints. */
  lemma {:induction false} PairsAllPass(parts: seq<string>, check: (string, string) -> Result<Waypoint, PlanError>, ws: seq<Waypoint>)
    requires |parts| % 2 == 0 && |ws| == |parts| / 2
    requires forall k :: 0 <= k < |parts| / 2 ==> check(parts[2 * k], parts[2 * k + 1]) == Success(ws[k])
    ensures PairsWith(parts, check) == Success(ws)
  {
    if parts != [] {
      var tail := parts[2..];
      forall k | 0 <= k < |tail| / 2 ensures check(tail[2 * k], tail[2 * k + 1]) == Success(ws[1..][k]) {
        assert tail[2 * k] == parts[2 * (k + 1)] && tail[2 * k + 1] == parts[2 * (k + 1) + 1];
      }
      PairsAllPass(tail, check, ws[1..]);
      assert check(parts[2 * 0], parts[2 * 0 + 1]) == Success(ws[0]);
      assert ws == [ws[0]] + ws[1..];
    }
  }

  /** When the pairs before pair `j` pass and pair `j` fails, the result is that failure. */
  lemma {:induction false} PairsFailAt(parts: seq<string>, check: (string, string) -> Result<Waypoint, PlanError>, j: nat)
    requires |parts| % 2 == 0 && j < |parts| / 2
    requires forall k :: 0 <= k < j ==> check(parts[2 * k], parts[2 * k + 1]).Success?
    requires check(parts[2 * j], parts[2 * j + 1]).Failure?
    ensures PairsWith(parts, check) == Failure(check(parts[2 * j], parts[2 * j + 1]).error)
  {
    var tail := parts[2..];
    if j > 0 {
      assert check(parts[2 * 0], parts[2 * 0 + 1]).Success?;
      forall k | 0 <= k < j - 1 ensures check(tail[2 * k], tail[2 * k + 1]).Success? {
        assert tail[2 * k] == parts[2 * (k + 1)] && tail[2 * k + 1] == parts[2 * (k + 1) + 1];
      }
      assert tail[2 * (j - 1)] == parts[2 * j] && tail[2 * (j - 1) + 1] == parts[2 * j + 1];
      PairsFailAt(tail, check, j - 1);
    } else {
      assert check(parts[0], parts[1]).Failure?;
    }
  }

  // ---------------------------------------------------------------- properties

  /**
   * A successful parse has one waypoint per pair, in input order: waypoint `k`
   * is the upper-cased code of token `2k` and the altitude of token `2k + 1`.
   */
  lemma {:induction false} PairsShape(parts: seq<string>, check: (string, string) -> Result<Waypoint, PlanError>)
    requires |parts| % 2 == 0 && PairsWith(parts, check).Success?
    ensures |PairsWith(parts, check).value| == |parts| / 2
    ensures forall k :: 0 <= k < |parts| / 2 ==> check(parts[2 * k], parts[2 * k + 1]) == Success(PairsWith(parts, check).value[k])
  {
    if parts != [] {
      PairsShape(parts[2..], check);
      var ws := PairsWith(parts, check).value;
      forall k | 0 <= k < |parts| / 2
        ensures check(parts[2 * k], parts[2 * k + 1]) == Success(ws[k])
      {
        if k > 0 {
          assert parts[2 * k] == parts[2..][2 * (k - 1)];
          assert parts[2 * k + 1] == parts[2..][2 * (k - 1) + 1];
        }
      }
    }
  }

  /** The parse fails exactly when some pair fails, and then with the error of the first failing pair. */
  lemma {:induction false} PairsFirstError(parts: seq<string>, check: (string, string) -> Result<Waypoint, PlanError>)
    requires |parts| % 2 == 0
    ensures PairsWith(parts, check).Success? <==> forall k :: 0 <= k < |parts| / 2 ==> check(parts[2 * k], parts[2 * k + 1]).Success?
    ensures PairsWith(parts, check).Failure? ==>
      exists k :: (0 <= k < |parts| / 2
        && check(parts[2 * k], parts[2 * k + 1]) == Failure(PairsWith(parts, check).error)
        && (forall j :: 0 <= j < k ==> check(parts[2 * j], parts[2 * j + 1]).Success?))
  {
    if parts != [] {
      var tail := parts[2..];
      PairsFirstError(tail, check);
      assert forall k :: 0 <= k < |tail| / 2 ==> tail[2 * k] == parts[2 * (k + 1)] && tail[2 * k + 1] == parts[2 * (k + 1) + 1];
      if check(parts[0], parts[1]).Success? {
        if PairsWith(parts, check).Failure? {
          var k :| 0 <= k < |tail| / 2
            && check(tail[2 * k], tail[2 * k + 1]) == Failure(PairsWith(tail, check).error)
            && (forall j :: 0 <= j < k ==> check(tail[2 * j], tail[2 * j + 1]).Success?);
          forall j | 0 <= j < k + 1 ensures check(parts[2 * j], parts[2 * j + 1]).Success? {
            if j > 0 {
              assert check(tail[2 * (j - 1)], tail[2 * (j - 1) + 1]).Success?;
            }
          }
          assert check(parts[2 * (k + 1)], parts[2 * (k + 1) + 1]) == Failure(PairsWith(parts, check).error);
        } else {
          forall k | 0 <= k < |parts| / 2 ensures check(parts[2 * k], parts[2 * k + 1]).Success? {
            if k > 0 {
              assert check(tail[2 * (k - 1)], tail[2 * (k - 1) + 1]).Success?;
            }
          }
        }
      } else {
        assert check(parts[2 * 0], parts[2 * 0 + 1]) == Failure(PairsWith(parts, check).error);
      }
    }
  }

  /** The plan text's parse: `parseFlightPlan` as a function of the text. */
  function ParsePlan(flightPlan: string): Result<seq<Waypoint>, PlanError> {
    PlanOf(Split(flightPlan, ','))
  }

  lemma CheckPairNeverFormatError(codeToken: string, altitudeToken: string)
    ensures CheckPair(codeToken, altitudeToken) != Failure(FormatError)
  {
  }

  /**
   * The plan text's parse never succeeds with an empty list, since splitting
   * always gives at least one token: the emptiness check in `fetchWeatherData`
   * (script.js:167) can never fire. An odd number of tokens fails with the
   * format error, and only it does.
   */
  lemma ParsePlanShape(flightPlan: string)
    ensures |Split(flightPlan, ',')| % 2 != 0 <==> ParsePlan(flightPlan) == Failure(FormatError)
    ensures ParsePlan(flightPlan).Success? ==> |ParsePlan(flightPlan).value| == |Split(flightPlan, ',')| / 2 >= 1
  {
    var parts := Split(flightPlan, ',');
    if |parts| % 2 == 0 {
      if PairsWith(parts, CheckPair).Success? {
        PairsShape(parts, CheckPair);
      } else {
        PairsFirstError(parts, CheckPair);
        var k :| 0 <= k < |parts| / 2 && CheckPair(parts[2 * k], parts[2 * k + 1]) == Failure(PairsWith(parts, CheckPair).error);
        CheckPairNeverFormatError(parts[2 * k], parts[2 * k + 1]);
      }
    }
  }

  /**
   * Waypoint `k` of a successful parse is token `2k` trimmed and upper-cased,
   * which is 3 or 4 capital letters, with the altitude `parseInt` reads from
   * token `2k + 1`, which lies in [0, 60000].
   */
  lemma ParsePlanWaypoints(parts: seq<string>)
    requires PlanOf(parts).Success?
    ensures |parts| % 2 == 0 && |PlanOf(parts).value| == |parts| / 2
    ensures forall k :: 0 <= k < |parts| / 2 ==>
      var w := PlanOf(parts).value[k];
      w.icao == ToUpper(Trim(parts[2 * k])) && IsAirportCode(w.icao)
      && ParseInt(Trim(parts[2 * k + 1])) == Some(w.altitude) && 0 <= w.altitude <= 60000
  {
    PairsShape(parts, CheckPair);
  }

  /**
   * A failed parse of an even list of tokens reports the first pair that fails:
   * its code when the code is not 3 or 4 capital letters once trimmed and
   * upper-cased, otherwise its untrimmed altitude token.
   */
  lemma ParsePlanReportsFirstBadPair(parts: seq<string>)
    requires |parts| % 2 == 0 && PlanOf(parts).Failure?
    ensures exists k :: (0 <= k < |parts| / 2
      && (forall j :: 0 <= j < k ==> CheckPair(parts[2 * j], parts[2 * j + 1]).Success?)
      && var code := ToUpper(Trim(parts[2 * k]));
         if !IsAirportCode(code) then PlanOf(parts).error == InvalidAirportCode(code)
         else !IsAltitude(ParseInt(Trim(parts[2 * k + 1]))) && PlanOf(parts).error == InvalidAltitude(parts[2 * k + 1]))
  {
    PairsFirstError(parts, CheckPair);
  }

  /** Splitting a route joined from comma-free tokens gives the tokens back, so the route's parse is theirs. */
  lemma ParsePlanOfTokens(parts: seq<string>)
    requires |parts| >= 1 && forall i :: 0 <= i < |parts| ==> ',' !in parts[i]
    ensures ParsePlan(Join(parts, [','])) == PlanOf(parts)
  {
    SplitJoin(parts, ',');
  }

  /** A code already in capitals is kept as it is. */
  lemma CodeOfCapitals(code: string)
    requires IsAirportCode(code)
    ensures ToUpper(Trim(code)) == code
  {
    TrimOfWord(code);
    ToUpperOfUpper(code);
  }

  /** A plain numeral is read as its value. */
  lemma AltitudeOfNumeral(altitude: string)
    requires |altitude| >= 1 && AllDigits(altitude)
    ensures ParseInt(Trim(altitude)) == Some(PrefixValue(altitude, |altitude|, 10))
  {
    TrimOfWord(altitude);
    ParseIntReadsNatural(altitude, "");
    assert altitude + "" == altitude;
  }

  /** A code already in capitals and a plain numeral in range pass the checks unchanged. */
  lemma CheckPairAcceptsPlain(code: string, altitude: string)
    requires IsAirportCode(code) && |altitude| >= 1 && AllDigits(altitude)
    requires PrefixValue(altitude, |altitude|, 10) <= 60000
    ensures CheckPair(code, altitude) == Success(Waypoint(code, PrefixValue(altitude, |altitude|, 10)))
  {
    CodeOfCapitals(code);
    AltitudeOfNumeral(altitude);
  }

  /** After a good code, a plain numeral above 60000 is rejected with the token as written. */
  lemma CheckPairRejectsHigh(code: string, altitude: string)
    requires IsAirportCode(code) && |altitude| >= 1 && AllDigits(altitude)
    requires PrefixValue(altitude, |altitude|, 10) > 60000
    ensures CheckPair(code, altitude) == Failure(InvalidAltitude(altitude))
  {
    CodeOfCapitals(code);
    AltitudeOfNumeral(altitude);
  }

  /** An airport code keeps no white space and no lower-case letter: `" kphx "` becomes `KPHX`. */
  lemma ClientNormalisesCode()
    ensures ToUpper(Trim(" kphx ")) == "KPHX"
  {
    assert Run(" kphx ", 0, IsJsSpace) == 1;
    assert TrimStart(" kphx ") == "kphx ";
    assert TrimEnd("kphx ") == "kphx";
  }

  /** Four tokens are two pairs, checked first to last. */
  lemma PairsOfFour(a: string, b: string, c: string, d: string, check: (string, string) -> Result<Waypoint, PlanError>)
    ensures PairsWith([a, b, c, d], check) ==
      match check(a, b)
      case Failure(e) => Failure(e)
      case Success(w) => (match check(c, d) case Failure(e) => Failure(e) case Success(v) => Success([w, v]))
  {
    var parts := [a, b, c, d];
    assert parts[2..] == [c, d];
    assert [c, d][2..] == [];
    assert PairsWith([], check) == Success([]);
    match check(c, d)
    case Failure(e) =>
      assert PairsWith([c, d], check) == Failure(e);
    case Success(v) =>
      assert [v] + [] == [v];
      assert PairsWith([c, d], check) == Success([v]);
      match check(a, b)
      case Failure(e) =>
      case Success(w) => assert [w] + [v] == [w, v];
  }

  /** The pairs `KPHX,10000` and `KLAX,1000` of the route `KPHX,10000,KLAX,1000`. */
  lemma CheckPairExamples()
    ensures CheckPair("KPHX", "10000") == Success(Waypoint("KPHX", 10000))
    ensures CheckPair("KLAX", "1000") == Success(Waypoint("KLAX", 1000))
  {
    CheckPairKphx();
    CheckPairKlax();
  }

  lemma CheckPairKphx()
    ensures CheckPair("KPHX", "10000") == Success(Waypoint("KPHX", 10000))
  {
    assert PrefixValue("10000", 5, 10) == 10000;
    CheckPairAcceptsPlain("KPHX", "10000");
  }

  lemma CheckPairKlax()
    ensures CheckPair("KLAX", "1000") == Success(Waypoint("KLAX", 1000))
  {
    assert PrefixValue("1000", 4, 10) == 1000;
    CheckPairAcceptsPlain("KLAX", "1000");
  }

  /** The pair `KPHX,70000`: the altitude is out of range and the untrimmed token is reported. */
  lemma CheckPairHighAltitude()
    ensures CheckPair("KPHX", "70000") == Failure(InvalidAltitude("70000"))
  {
    assert PrefixValue("70000", 5, 10) == 70000;
    CheckPairRejectsHigh("KPHX", "70000");
  }

  /** The pair `XX,1000`: the code is too short and is reported. */
  lemma CheckPairShortCode()
    ensures CheckPair("XX", "1000") == Failure(InvalidAirportCode("XX"))
  {
    TrimOfWord("XX");
    ToUpperOfUpper("XX");
  }

  /** A token without white space at either end is its own trim. */
  lemma TrimOfWord(w: string)
    requires w != [] && !IsJsSpace(w[0]) && !IsJsSpace(w[|w| - 1])
    ensures Trim(w) == w
  {
    assert Run(w, 0, IsJsSpace) == 0;
    assert TrimStart(w) == w;
  }
}
