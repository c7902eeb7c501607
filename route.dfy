/**
 * The server's validation of the `route` query parameter of `GET /api/weather`
 * (server.js:119-155). A missing or empty route, an odd number of tokens, a bad
 * airport code and a bad altitude each give a 400 answer with an `error` and a
 * `details` text. Unlike the client's `parseFlightPlan`, the server checks every
 * airport code before any altitude, and it trims the codes without upper-casing
 * them, so a lower-case code that the client accepts is refused here.
 */
module Route {
  import opened Wrappers
  import opened Text
  import opened JsInt
  import opened FlightPlan

  /** The four 400 answers of the route check. */
  datatype RouteError =
    | MissingRoute
    | BadRouteFormat
    | BadAirportCode(airport: string)
    | BadAltitude(raw: string)

  /** The `error` field of the 400 body. */
  function ErrorText(e: RouteError): string {
    match e
    case MissingRoute => "Route parameter is required"
    case BadRouteFormat => "Invalid route format"
    case BadAirportCode(_) => "Invalid airport code"
    case BadAltitude(_) => "Invalid altitude"
  }

  /** The `details` field of the 400 body. */
  function Details(e: RouteError): string {
    match e
    case MissingRoute => "Please provide a valid flight plan in the format: KPHX,10000,VIDP,1000"
    case BadRouteFormat => "Route must contain pairs of airport codes and altitudes"
    case BadAirportCode(airport) => "Airport code \"" + airport + "\" is invalid. Must be 3-4 uppercase letters."
    case BadAltitude(raw) => "Altitude \"" + raw + "\" is invalid. Must be a number between 0 and 60000 feet."
  }

  /** One iteration of the first loop: the trimmed token must be 3 or 4 capital letters as it stands. */
  function CodeCheck(token: string): Result<string, RouteError> {
    var airport := Trim(token);
    if !IsAirportCode(airport) then Failure(BadAirportCode(airport)) else Success(airport)
  }

  /** One iteration of the second loop; the error carries the untrimmed token. */
  function AltitudeCheck(token: string): Option<RouteError> {
    if !IsAltitude(ParseInt(Trim(token))) then Some(BadAltitude(token)) else None
  }

  /** The codes `cs` in front of a later result, or its error. */
  function PrependCodes(cs: seq<string>, r: Result<seq<string>, RouteError>): Result<seq<string>, RouteError> {
    match r
    case Success(rest) => Success(cs + rest)
    case Failure(e) => Failure(e)
  }

  /** The tokens at positions `i`, `i + 2`, ... checked in order with `check`; the first failure wins. */
  function CodesFrom(parts: seq<string>, i: nat, check: string -> Result<string, RouteError>): Result<seq<string>, RouteError>
    decreases |parts| - i
  {
    if i >= |parts| then Success([])
    else
      match check(parts[i])
      case Failure(e) => Failure(e)
      case Success(a) => PrependCodes([a], CodesFrom(parts, i + 2, check))
  }

  /** The first error `check` reports for the tokens at positions `i`, `i + 2`, ... */
  function FirstBadFrom(parts: seq<string>, i: nat, check: string -> Option<RouteError>): Option<RouteError>
    decreases |parts| - i
  {
    if i >= |parts| then None
    else if check(parts[i]).Some? then check(parts[i])
    else FirstBadFrom(parts, i + 2, check)
  }

  /** The airports of a valid route (`req.query.route`, `None` when absent), or the 400 answer. */
  function RouteOf(route: Option<string>): Result<seq<string>, RouteError> {
    if route.None? || route.value == [] then Failure(MissingRoute)
    else RouteOfParts(Split(route.value, ','))
  }

  /** The checks after `route.split(',')`: the pair count, then every code, then every altitude. */
  function RouteOfParts(parts: seq<string>): Result<seq<string>, RouteError> {
    if |parts| % 2 != 0 then Failure(BadRouteFormat)
    else
      match CodesFrom(parts, 0, CodeCheck)
      case Failure(e) => Failure(e)
      case Success(airports) =>
        match FirstBadFrom(parts, 1, AltitudeCheck)
        case Some(e) => Failure(e)
        case None => Success(airports)
  }

  /** The route check at the head of the `/api/weather` handler. */
  method ValidateRoute(route: Option<string>) returns (r: Result<seq<string>, RouteError>)
    ensures r == RouteOf(route)
  {
    if route.None? || route.value == [] {
      return Failure(MissingRoute);
    }
    var routeParts := Split(route.value, ',');
    if |routeParts| % 2 != 0 {
      return Failure(BadRouteFormat);
    }
    var airports := CollectCodes(routeParts, CodeCheck);
    if airports.Failure? {
      return Failure(airports.error);
    }
    var bad := CheckAltitudes(routeParts, AltitudeCheck);
    if bad.Some? {
      return Failure(bad.value);
    }
    return airports;
  }

  /** The first loop: `airports.push` of every token at an even position that `check` accepts. */
  method CollectCodes(parts: seq<string>, check: string -> Result<string, RouteError>) returns (r: Result<seq<string>, RouteError>)
    ensures r == CodesFrom(parts, 0, check)
  {
    var airports: seq<string> := [];
    var i := 0;
    PrependNoCodes(CodesFrom(parts, 0, check));
    while i < |parts|
      invariant CodesFrom(parts, 0, check) == PrependCodes(airports, CodesFrom(parts, i, check))
      decreases |parts| - i
    {
      var airport := check(parts[i]);
      if airport.Failure? {
        return Failure(airport.error);
      }
      PrependCodesTwice(airports, [airport.value], CodesFrom(parts, i + 2, check));
      airports := airports + [airport.value];
      i := i + 2;
    }
    assert airports + [] == airports;
    return Success(airports);
  }

  /** The second loop over the tokens at odd positions: the first one `check` rejects. */
  method CheckAltitudes(parts: seq<string>, check: string -> Option<RouteError>) returns (r: Option<RouteError>)
    ensures r == FirstBadFrom(parts, 1, check)
  {
    var i := 1;
    while i < |parts|
      invariant FirstBadFrom(parts, 1, check) == FirstBadFrom(parts, i, check)
      decreases |parts| - i
    {
      var bad := check(parts[i]);
      if bad.Some? {
        return bad;
      }
      i := i + 2;
    }
    return None;
  }

  // ---------------------------------------------------------------- the loops' results

  lemma PrependNoCodes(r: Result<seq<string>, RouteError>)
    ensures PrependCodes([], r) == r
  {
    if r.Success? { assert [] + r.value == r.value; }
  }

  lemma PrependCodesTwice(xs: seq<string>, ys: seq<string>, r: Result<seq<string>, RouteError>)
    ensures PrependCodes(xs, PrependCodes(ys, r)) == PrependCodes(xs + ys, r)
  {
    if r.Success? { assert xs + (ys + r.value) == (xs + ys) + r.value; }
  }

  /** A successful first loop returns what `check` gave for every token at `i`, `i + 2`, ... */
  lemma {:induction false} CodesFromShape(parts: seq<string>, i: nat, check: string -> Result<string, RouteError>)
    requires CodesFrom(parts, i, check).Success?
    ensures var cs := CodesFrom(parts, i, check).value;
      && (i <= |parts| ==> |parts| <= i + 2 * |cs| <= |parts| + 1)
      && (i > |parts| ==> cs == [])
      && forall k :: 0 <= k < |cs| ==> i + 2 * k < |parts| && check(parts[i + 2 * k]) == Success(cs[k])
    decreases |parts| - i
  {
    if i < |parts| {
      var a := check(parts[i]).value;
      CodesFromShape(parts, i + 2, check);
      var rest := CodesFrom(parts, i + 2, check).value;
      var cs := CodesFrom(parts, i, check).value;
      assert cs == [a] + rest;
      forall k | 0 <= k < |cs|
        ensures i + 2 * k < |parts| && check(parts[i + 2 * k]) == Success(cs[k])
      {
        if k > 0 {
          assert cs[k] == rest[k - 1];
          assert i + 2 + 2 * (k - 1) == i + 2 * k;
        }
      }
    }
  }

  /** A failing first loop stops at the first token `check` rejects. */
  lemma {:induction false} CodesFromFirstFailure(parts: seq<string>, i: nat, check: string -> Result<string, RouteError>)
    requires CodesFrom(parts, i, check).Failure?
    ensures exists j: nat :: (
      && i + 2 * j < |parts|
      && check(parts[i + 2 * j]) == Failure(CodesFrom(parts, i, check).error)
      && forall k :: 0 <= k < j ==> check(parts[i + 2 * k]).Success?)
    decreases |parts| - i
  {
    var e := CodesFrom(parts, i, check).error;
    if check(parts[i]).Failure? {
      assert i + 2 * 0 < |parts| && check(parts[i + 2 * 0]) == Failure(e);
    } else {
      CodesFromFirstFailure(parts, i + 2, check);
      var j: nat :| (
        && i + 2 + 2 * j < |parts|
        && check(parts[i + 2 + 2 * j]) == Failure(e)
        && forall k :: 0 <= k < j ==> check(parts[i + 2 + 2 * k]).Success?);
      var j1: nat := j + 1;
      assert i + 2 * j1 == i + 2 + 2 * j;
      assert check(parts[i + 2 * j1]) == Failure(e);
      forall k | 0 <= k < j1 ensures check(parts[i + 2 * k]).Success? {
        if k > 0 { assert i + 2 * k == i + 2 + 2 * (k - 1); }
      }
    }
  }

  /** `check` rejects a token at `i + 2 * j` while accepting every earlier one: the first loop fails there. */
  lemma {:induction false} CodesFromFailsAt(parts: seq<string>, i: nat, check: string -> Result<string, RouteError>, j: nat)
    requires i + 2 * j < |parts| && check(parts[i + 2 * j]).Failure?
    requires forall k :: 0 <= k < j ==> check(parts[i + 2 * k]).Success?
    ensures CodesFrom(parts, i, check) == Failure(check(parts[i + 2 * j]).error)
    decreases j
  {
    if j > 0 {
      assert check(parts[i + 2 * 0]).Success?;
      forall k | 0 <= k < j - 1 ensures check(parts[i + 2 + 2 * k]).Success? {
        assert i + 2 + 2 * k == i + 2 * (k + 1);
      }
      assert i + 2 + 2 * (j - 1) == i + 2 * j;
      CodesFromFailsAt(parts, i + 2, check, j - 1);
    }
  }

  /** The second loop finds nothing exactly when `check` accepts every token at `i`, `i + 2`, ... */
  lemma {:induction false} FirstBadFromNoneIff(parts: seq<string>, i: nat, check: string -> Option<RouteError>)
    ensures FirstBadFrom(parts, i, check).None? <==> forall k :: 0 <= k && i + 2 * k < |parts| ==> check(parts[i + 2 * k]).None?
    decreases |parts| - i
  {
    if i < |parts| {
      FirstBadFromNoneIff(parts, i + 2, check);
      if FirstBadFrom(parts, i, check).None? {
        forall k | 0 <= k && i + 2 * k < |parts| ensures check(parts[i + 2 * k]).None? {
          if k > 0 { assert i + 2 * k == i + 2 + 2 * (k - 1); }
        }
      } else if check(parts[i]).None? {
        var k :| 0 <= k && i + 2 + 2 * k < |parts| && check(parts[i + 2 + 2 * k]).Some?;
        assert i + 2 * (k + 1) == i + 2 + 2 * k;
      } else {
        assert i + 2 * 0 == i;
      }
    }
  }

  /** The second loop's error is the one `check` reports for the first token it rejects. */
  lemma {:induction false} FirstBadFromFirst(parts: seq<string>, i: nat, check: string -> Option<RouteError>)
    requires FirstBadFrom(parts, i, check).Some?
    ensures exists j: nat :: (
      && i + 2 * j < |parts|
      && check(parts[i + 2 * j]) == FirstBadFrom(parts, i, check)
      && forall k :: 0 <= k < j ==> check(parts[i + 2 * k]).None?)
    decreases |parts| - i
  {
    if check(parts[i]).Some? {
      assert i + 2 * 0 < |parts| && check(parts[i + 2 * 0]) == FirstBadFrom(parts, i, check);
    } else {
      FirstBadFromFirst(parts, i + 2, check);
      var j: nat :| (
        && i + 2 + 2 * j < |parts|
        && check(parts[i + 2 + 2 * j]) == FirstBadFrom(parts, i, check)
        && forall k :: 0 <= k < j ==> check(parts[i + 2 + 2 * k]).None?);
      var j1: nat := j + 1;
      assert i + 2 * j1 == i + 2 + 2 * j;
      assert check(parts[i + 2 * j1]) == FirstBadFrom(parts, i, check);
      forall k | 0 <= k < j1 ensures check(parts[i + 2 * k]).None? {
        if k > 0 { assert i + 2 * k == i + 2 + 2 * (k - 1); }
      }
    }
  }

  // ---------------------------------------------------------------- what the route check means

  /** The first loop's result for an even list of tokens, from the first token on. */
  lemma CodesShape(parts: seq<string>, check: string -> Result<string, RouteError>)
    requires |parts| % 2 == 0 && CodesFrom(parts, 0, check).Success?
    ensures var cs := CodesFrom(parts, 0, check).value;
      && |parts| == 2 * |cs|
      && forall k :: 0 <= k < |cs| ==> check(parts[2 * k]) == Success(cs[k])
  {
    CodesFromShape(parts, 0, check);
  }

  /** The second loop finding nothing: `check` accepts every token at an odd position. */
  lemma AltitudesPass(parts: seq<string>, check: string -> Option<RouteError>)
    requires FirstBadFrom(parts, 1, check).None?
    ensures forall k :: 0 <= k && 2 * k + 1 < |parts| ==> check(parts[2 * k + 1]).None?
  {
    FirstBadFromNoneIff(parts, 1, check);
    forall k | 0 <= k && 2 * k + 1 < |parts| ensures check(parts[2 * k + 1]).None? {
      assert 1 + 2 * k == 2 * k + 1;
    }
  }

  /**
   * A route the server accepts: its tokens come in pairs, the airports are the
   * trimmed code tokens in route order (duplicates kept), each 3 or 4 capital
   * letters, and every altitude token reads as a number in [0, 60000].
   */
  lemma RouteAccepted(parts: seq<string>)
    requires RouteOfParts(parts).Success?
    ensures var airports := RouteOfParts(parts).value;
      && |parts| == 2 * |airports|
      && (forall k :: 0 <= k < |airports| ==> airports[k] == Trim(parts[2 * k]) && IsAirportCode(airports[k]))
      && (forall k :: 0 <= k < |airports| ==> IsAltitude(ParseInt(Trim(parts[2 * k + 1]))))
  {
    CodesShape(parts, CodeCheck);
    AltitudesPass(parts, AltitudeCheck);
  }

  /** Neither loop reports a missing route: the codes report bad codes, the altitudes bad altitudes. */
  lemma LoopErrors(parts: seq<string>)
    ensures CodesFrom(parts, 0, CodeCheck).Failure? ==> CodesFrom(parts, 0, CodeCheck).error.BadAirportCode?
    ensures FirstBadFrom(parts, 1, AltitudeCheck).Some? ==> FirstBadFrom(parts, 1, AltitudeCheck).value.BadAltitude?
  {
    if CodesFrom(parts, 0, CodeCheck).Failure? {
      CodesFromFirstFailure(parts, 0, CodeCheck);
    }
    if FirstBadFrom(parts, 1, AltitudeCheck).Some? {
      FirstBadFromFirst(parts, 1, AltitudeCheck);
    }
  }

  /** A route that is absent or empty is refused before anything else is looked at, and only such a route is. */
  lemma RouteRequired(route: Option<string>)
    ensures RouteOf(route) == Failure(MissingRoute) <==> route.None? || route.value == []
  {
    if route.Some? && route.value != [] {
      LoopErrors(Split(route.value, ','));
    }
  }

  /** An odd number of tokens is refused as a bad format, and is the only thing that is. */
  lemma RouteNeedsPairs(parts: seq<string>)
    ensures RouteOfParts(parts) == Failure(BadRouteFormat) <==> |parts| % 2 != 0
  {
    LoopErrors(parts);
  }

  /**
   * When every code is good, the server reports the first bad altitude token
   * as written.
   */
  lemma ServerReportsFirstBadAltitude(parts: seq<string>)
    requires |parts| % 2 == 0 && CodesFrom(parts, 0, CodeCheck).Success?
    requires RouteOfParts(parts).Failure?
    ensures exists j: nat :: (
      && 2 * j + 1 < |parts|
      && !IsAltitude(ParseInt(Trim(parts[2 * j + 1])))
      && RouteOfParts(parts) == Failure(BadAltitude(parts[2 * j + 1]))
      && forall k :: 0 <= k < j ==> IsAltitude(ParseInt(Trim(parts[2 * k + 1]))))
  {
    FirstBadAtOdd(parts, AltitudeCheck);
  }

  /** The second loop's error, from the tokens at odd positions. */
  lemma FirstBadAtOdd(parts: seq<string>, check: string -> Option<RouteError>)
    requires FirstBadFrom(parts, 1, check).Some?
    ensures exists j: nat :: (
      && 2 * j + 1 < |parts|
      && check(parts[2 * j + 1]) == FirstBadFrom(parts, 1, check)
      && forall k :: 0 <= k < j ==> check(parts[2 * k + 1]).None?)
  {
    FirstBadFromFirst(parts, 1, check);
    var j: nat :| (
      && 1 + 2 * j < |parts|
      && check(parts[1 + 2 * j]) == FirstBadFrom(parts, 1, check)
      && forall k :: 0 <= k < j ==> check(parts[1 + 2 * k]).None?);
    assert 1 + 2 * j == 2 * j + 1;
    forall k | 0 <= k < j ensures check(parts[2 * k + 1]).None? {
      assert 1 + 2 * k == 2 * k + 1;
    }
  }

  /**
   * When some code token is bad the server reports the first bad code, however
   * bad an earlier altitude is: the codes are all checked before any altitude.
   */
  lemma ServerChecksCodesFirst(parts: seq<string>, j: nat)
    requires |parts| % 2 == 0 && 2 * j < |parts|
    requires !IsAirportCode(Trim(parts[2 * j]))
    requires forall k :: 0 <= k < j ==> IsAirportCode(Trim(parts[2 * k]))
    ensures RouteOfParts(parts) == Failure(BadAirportCode(Trim(parts[2 * j])))
  {
    forall k | 0 <= k < j ensures CodeCheck(parts[0 + 2 * k]).Success? {
      assert 0 + 2 * k == 2 * k;
    }
    assert 0 + 2 * j == 2 * j;
    CodesFromFailsAt(parts, 0, CodeCheck, j);
  }

  /**
   * Every route the server accepts, the client's `parseFlightPlan` accepts too,
   * with the same airports in the same order.
   */
  lemma ServerAcceptedRouteParsesOnClient(parts: seq<string>)
    requires RouteOfParts(parts).Success?
    ensures PlanOf(parts).Success?
    ensures var ws := PlanOf(parts).value;
      var airports := RouteOfParts(parts).value;
      |ws| == |airports| && forall k :: 0 <= k < |ws| ==> ws[k].icao == airports[k]
  {
    var airports := RouteOfParts(parts).value;
    RouteAccepted(parts);
    forall k | 0 <= k < |parts| / 2
      ensures CheckPair(parts[2 * k], parts[2 * k + 1]).Success? && CheckPair(parts[2 * k], parts[2 * k + 1]).value.icao == airports[k]
    {
      ClientAcceptsServerPair(parts[2 * k], parts[2 * k + 1]);
    }
    PairsAllSucceed(parts, CheckPair);
  }

  /** When every pair passes `check`, the pairs' result lists what `check` gave, pair by pair. */
  lemma PairsAllSucceed(parts: seq<string>, check: (string, string) -> Result<Waypoint, PlanError>)
    requires |parts| % 2 == 0
    requires forall k :: 0 <= k < |parts| / 2 ==> check(parts[2 * k], parts[2 * k + 1]).Success?
    ensures PairsWith(parts, check).Success? && |PairsWith(parts, check).value| == |parts| / 2
    ensures forall k :: 0 <= k < |parts| / 2 ==> PairsWith(parts, check).value[k] == check(parts[2 * k], parts[2 * k + 1]).value
  {
    var ws := seq(|parts| / 2, k requires 0 <= k < |parts| / 2 => check(parts[2 * k], parts[2 * k + 1]).value);
    PairsAllPass(parts, check, ws);
  }

  /** A pair the server accepts passes the client's checks with the same code. */
  lemma ClientAcceptsServerPair(codeToken: string, altitudeToken: string)
    requires IsAirportCode(Trim(codeToken)) && IsAltitude(ParseInt(Trim(altitudeToken)))
    ensures CheckPair(codeToken, altitudeToken) == Success(Waypoint(Trim(codeToken), ParseInt(Trim(altitudeToken)).value))
  {
    ToUpperOfUpper(Trim(codeToken));
  }

  /** Two tokens are one pair. */
  lemma PairsOfTwo(a: string, b: string, check: (string, string) -> Result<Waypoint, PlanError>)
    ensures PairsWith([a, b], check) == match check(a, b) case Failure(e) => Failure(e) case Success(w) => Success([w])
  {
    assert [a, b][2..] == [];
    assert PairsWith([], check) == Success([]);
    if check(a, b).Success? {
      assert [check(a, b).value] + [] == [check(a, b).value];
    }
  }

  /** A code of 3 or 4 lower-case letters. */
  predicate IsLowerCaseCode(code: string) {
    (|code| == 3 || |code| == 4) && forall i :: 0 <= i < |code| ==> IsLower(code[i])
  }

  /** The client upper-cases a lower-case code and accepts it. */
  lemma ClientAcceptsLowerCase(code: string, altitude: string, value: int)
    requires IsLowerCaseCode(code) && ParseInt(Trim(altitude)) == Some(value) && 0 <= value <= 60000
    ensures PlanOf([code, altitude]) == Success([Waypoint(ToUpper(code), value)])
  {
    CheckPairOfLowerCase(code, altitude, value);
    PlanOfOnePair(code, altitude, CheckPair(code, altitude).value);
  }

  /** A plan of one pair that passes the client's checks is that one waypoint. */
  lemma PlanOfOnePair(code: string, altitude: string, w: Waypoint)
    requires CheckPair(code, altitude) == Success(w)
    ensures PlanOf([code, altitude]) == Success([w])
  {
    PairsOfTwo(code, altitude, CheckPair);
  }

  lemma CheckPairOfLowerCase(code: string, altitude: string, value: int)
    requires IsLowerCaseCode(code) && ParseInt(Trim(altitude)) == Some(value) && 0 <= value <= 60000
    ensures CheckPair(code, altitude) == Success(Waypoint(ToUpper(code), value))
  {
    LowerCaseCodeUpperCased(code);
  }

  lemma LowerCaseCodeUpperCased(code: string)
    requires IsLowerCaseCode(code)
    ensures ToUpper(Trim(code)) == ToUpper(code) && IsAirportCode(ToUpper(code))
  {
    TrimOfWord(code);
    ToUpperOfAsciiLetters(code);
  }

  /** The server takes the code as written and refuses it. */
  lemma ServerRejectsLowerCase(code: string, altitude: string)
    requires IsLowerCaseCode(code)
    ensures RouteOfParts([code, altitude]) == Failure(BadAirportCode(code))
  {
    TrimOfWord(code);
    assert !IsUpper(code[0]);
    assert CodeCheck(code) == Failure(BadAirportCode(code));
  }

  /**
   * The server is case-sensitive where the client is not: the route `code,altitude`
   * with a lower-case code is accepted by `parseFlightPlan`, which upper-cases the
   * code, and refused by the server with the code as written.
   */
  lemma ServerIsCaseSensitive(code: string, altitude: string)
    requires IsLowerCaseCode(code) && ',' !in altitude
    requires IsAltitude(ParseInt(Trim(altitude)))
    ensures ParsePlan(code + "," + altitude).Success?
    ensures RouteOf(Some(code + "," + altitude)) == Failure(BadAirportCode(code))
  {
    assert ',' !in code by {
      forall i | 0 <= i < |code| ensures code[i] != ',' { assert IsLower(code[i]); }
    }
    assert Join([code, altitude], [',']) == code + "," + altitude;
    SplitJoin([code, altitude], ',');
    ClientAcceptsLowerCase(code, altitude, ParseInt(Trim(altitude)).value);
    ServerRejectsLowerCase(code, altitude);
  }
}
