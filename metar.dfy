/**
 * The client's reading of a METAR: `decodeMETAR` (script.js:192-205), the
 * severity ladder of `generateWeatherSummary` (script.js:460-473) and the wind
 * and visibility texts of the route summary (script.js:495-511). Each regular
 * expression is a matcher tried at one position; `Exec` and `GlobalMatch` turn
 * it into `metar.match(...)` without and with the `g` flag.
 */
module Metar {
  import opened Wrappers
  import opened Text
  import opened Scan
  import opened Seqs

  // ---------------------------------------------------------------- the patterns of decodeMETAR

  /** `\d{2,3}` with nothing after it that could fail: as many digits as there are, up to three. */
  function TwoOrThreeDigits(s: string, q: nat): (n: Option<nat>)
    ensures n.Some? ==> 2 <= n.value <= 3 && q + n.value <= |s|
  {
    var k := Min(Run(s, q, IsDigit), 3);
    if k >= 2 then Some(k) else None
  }

  /**
   * `KT(\d{3}|VRB)(\d{2,3})` at `p`. Both alternatives are three characters long
   * and the rest of the pattern is the same after either, so when the digits fail
   * the pattern fails whichever alternative matched.
   */
  function KtWindAt(s: string, p: nat): Option<Match> {
    var q := p + 2;
    if LitAt(s, p, "KT") && (Run(s, q, IsDigit) >= 3 || LitAt(s, q, "VRB")) && TwoOrThreeDigits(s, q + 3).Some? then
      var n := TwoOrThreeDigits(s, q + 3).value;
      Some(Match(s[p..q + 3 + n], [s[q..q + 3], s[q + 3..q + 3 + n]]))
    else None
  }

  /**
   * ` (\d+)SM` at `p`. Giving back digits cannot help: the `S` would then have to
   * match a digit.
   */
  function VisibilityAt(s: string, p: nat): Option<Match> {
    var n := Run(s, p + 1, IsDigit);
    if LitAt(s, p, " ") && n >= 1 && LitAt(s, p + 1 + n, "SM") then
      Some(Match(s[p..p + 3 + n], [s[p + 1..p + 1 + n]]))
    else None
  }

  /** The alternatives of the weather group, in the order the pattern lists them. */
  const WeatherCodes: seq<string> := ["RA", "SN", "DZ", "FG", "BR", "HZ", "FU", "SA", "DU", "TS", "SQ", "FC", "SS", "DS"]

  predicate IsSign(c: char) { c == '+' || c == '-' }

  /** `[+-]?(RA|SN|...|DS)` at `p`: the sign is taken when a code follows it. */
  function WeatherAt(s: string, p: nat): Option<Match> {
    if p < |s| && IsSign(s[p]) && FirstLitAt(s, p + 1, WeatherCodes).Some? then
      var code := FirstLitAt(s, p + 1, WeatherCodes).value;
      Some(Match(s[p..p + 1 + |code|], [code]))
    else
      match FirstLitAt(s, p, WeatherCodes)
      case Some(code) => Some(Match(code, [code]))
      case None => None
  }

  const CloudCovers: seq<string> := ["FEW", "SCT", "BKN", "OVC"]

  /** ` (FEW|SCT|BKN|OVC)(\d{3})` at `p`. */
  function CloudAt(s: string, p: nat): Option<Match> {
    if LitAt(s, p, " ") && FirstLitAt(s, p + 1, CloudCovers).Some? && Run(s, p + 4, IsDigit) >= 3 then
      Some(Match(s[p..p + 7], [FirstLitAt(s, p + 1, CloudCovers).value, s[p + 4..p + 7]]))
    else None
  }

  /** ` (\d{2})\/(\d{2})` at `p`. */
  function TemperatureAt(s: string, p: nat): Option<Match> {
    if LitAt(s, p, " ") && Run(s, p + 1, IsDigit) >= 2 && LitAt(s, p + 3, "/") && Run(s, p + 4, IsDigit) >= 2 then
      Some(Match(s[p..p + 6], [s[p + 1..p + 3], s[p + 4..p + 6]]))
    else None
  }

  /** `A(\d{4})` at `p`. */
  function AltimeterAt(s: string, p: nat): Option<Match> {
    if LitAt(s, p, "A") && Run(s, p + 1, IsDigit) >= 4 then
      Some(Match(s[p..p + 5], [s[p + 1..p + 5]]))
    else None
  }

  /** The object `decodeMETAR` returns; a `None` field is a `null` match. */
  datatype DecodedMetar = DecodedMetar(
    station: string,
    time: string,
    wind: Option<Match>,
    visibility: Option<Match>,
    weather: Option<seq<string>>,
    clouds: Option<seq<string>>,
    temperature: Option<Match>,
    altimeter: Option<Match>)

  /** `decodeMETAR(metar)`. */
  function DecodeMetar(metar: string): DecodedMetar {
    DecodedMetar(
      Substring(metar, 0, 4),
      Substring(metar, 5, 11),
      Exec(metar, KtWindAt),
      Exec(metar, VisibilityAt),
      GlobalMatch(metar, WeatherAt),
      GlobalMatch(metar, CloudAt),
      Exec(metar, TemperatureAt),
      Exec(metar, AltimeterAt))
  }

  // ---------------------------------------------------------------- what decodeMETAR gives

  /**
   * The station is the first four characters and the time characters 5 to 10,
   * each cut short by a short report: decoding never fails.
   */
  lemma DecodeMetarFields(metar: string)
    ensures DecodeMetar(metar).station == metar[..Min(4, |metar|)]
    ensures DecodeMetar(metar).time == metar[Min(5, |metar|)..Min(11, |metar|)]
  {
  }

  /**
   * The wind of `decodeMETAR` needs a literal `KT` right before three digits or
   * `VRB`, and then two or three digits.
   */
  lemma KtWindAtIff(s: string, p: nat)
    ensures KtWindAt(s, p).Some? <==>
      LitAt(s, p, "KT") && (Run(s, p + 2, IsDigit) >= 3 || LitAt(s, p + 2, "VRB")) && Run(s, p + 5, IsDigit) >= 2
  {
  }

  /** A bare `KT` group, as at the end of a standard `dddssKT` wind group, gives no wind to `decodeMETAR`. */
  lemma StandardWindGroupNotDecoded(group: string)
    requires |group| == 5 && AllDigits(group)
    ensures DecodeMetar(group + "KT").wind.None?
  {
    var s := group + "KT";
    forall q | 0 <= q <= |s| ensures KtWindAt(s, q).None? {
      if q < 5 {
        assert s[q] == group[q];
        assert !LitAt(s, q, "KT");
      } else if q == 5 {
        assert Run(s, 7, IsDigit) == 0;
      }
    }
  }

  /** Every element of the weather list is a weather code, with its sign when it had one. */
  predicate IsWeatherToken(w: string) {
    w in WeatherCodes || (|w| == 3 && IsSign(w[0]) && w[1..] in WeatherCodes)
  }

  lemma WeatherAtToken(s: string, p: nat)
    requires WeatherAt(s, p).Some?
    ensures IsWeatherToken(WeatherAt(s, p).value.full)
  {
    if p < |s| && IsSign(s[p]) && FirstLitAt(s, p + 1, WeatherCodes).Some? {
      var code := FirstLitAt(s, p + 1, WeatherCodes).value;
      var w := s[p..p + 1 + |code|];
      assert |code| == 2 by { assert code in WeatherCodes; }
      assert w[1..] == s[p + 1..p + 1 + |code|] == code;
    }
  }

  /**
   * The weather list of `decodeMETAR` holds the full matches of the leftmost
   * non-overlapping scan (`ScanHitsLeftmost`), in order, so a sign stays
   * attached to its code: `+TS` is listed as `+TS`, not `TS`.
   */
  lemma WeatherTokens(metar: string)
    requires DecodeMetar(metar).weather.Some?
    ensures var w, hits := DecodeMetar(metar).weather.value, ScanHits(metar, 0, WeatherAt);
      |w| == |hits| && forall i :: 0 <= i < |w| ==> w[i] == hits[i].m.full && IsWeatherToken(w[i])
  {
    var all, hits := MatchAll(metar, 0, WeatherAt), ScanHits(metar, 0, WeatherAt);
    ScanHitsLeftmost(metar, 0, WeatherAt);
    forall i | 0 <= i < |all| ensures all[i] == hits[i].m.full && IsWeatherToken(all[i]) {
      WeatherAtToken(metar, hits[i].pos);
    }
  }

  /** A cloud layer: a space, the cover, then the three digits of its height. */
  predicate IsCloudToken(c: string) {
    |c| == 7 && c[0] == ' ' && c[1..4] in CloudCovers && AllDigits(c[4..])
  }

  lemma CloudAtToken(s: string, p: nat)
    requires CloudAt(s, p).Some?
    ensures IsCloudToken(CloudAt(s, p).value.full)
  {
    var cover := FirstLitAt(s, p + 1, CloudCovers).value;
    assert |cover| == 3 by { assert cover in CloudCovers; }
    var c := s[p..p + 7];
    assert c == CloudAt(s, p).value.full;
    assert LitAt(s, p + 1, cover);
    SliceOfSlice(s, p, p + 7, 1, 4);
    assert c[0] == s[p..p + 1][0] == ' ';
    forall i | 0 <= i < 3 ensures IsDigit(c[4..][i]) {
      assert c[4..][i] == s[p + 4 + i];
    }
    assert AllDigits(c[4..]);
  }

  /** The cloud list of `decodeMETAR` holds the full matches of the leftmost non-overlapping scan, leading space included. */
  lemma CloudTokens(metar: string)
    requires DecodeMetar(metar).clouds.Some?
    ensures var c, hits := DecodeMetar(metar).clouds.value, ScanHits(metar, 0, CloudAt);
      |c| == |hits| && forall i :: 0 <= i < |c| ==> c[i] == hits[i].m.full && IsCloudToken(c[i])
  {
    var all, hits := MatchAll(metar, 0, CloudAt), ScanHits(metar, 0, CloudAt);
    ScanHitsLeftmost(metar, 0, CloudAt);
    forall i | 0 <= i < |all| ensures all[i] == hits[i].m.full && IsCloudToken(all[i]) {
      CloudAtToken(metar, hits[i].pos);
    }
  }

  // ---------------------------------------------------------------- severity

  /** The three colours of a waypoint in the route summary. */
  datatype Severity = Vfr | SigWx | SevereWx

  /** `weatherCondition`, the CSS class. */
  function SeverityClass(v: Severity): string {
    match v
    case Vfr => "vfr"
    case SigWx => "sig-wx"
    case SevereWx => "severe-wx"
  }

  /** `weatherLabel`, the text shown. */
  function SeverityLabel(v: Severity): string {
    match v
    case Vfr => "VFR"
    case SigWx => "SIG-WX"
    case SevereWx => "SEVERE-WX"
  }

  /** `metars.find(m => m.startsWith(icao))`. */
  function FindMetar(metars: seq<string>, icao: string): (r: Option<string>)
    ensures r.Some? ==> r.value in metars && StartsWith(r.value, icao)
    ensures r.None? <==> forall i :: 0 <= i < |metars| ==> !StartsWith(metars[i], icao)
  {
    if metars == [] then None
    else if StartsWith(metars[0], icao) then Some(metars[0])
    else FindMetar(metars[1..], icao)
  }

  /** `['TS', 'SQ', 'FC'].includes(w)`. */
  predicate IsSevereCode(w: string) { w == "TS" || w == "SQ" || w == "FC" }

  /** `c.includes('BKN') || c.includes('OVC')`. */
  predicate IsCeilingLayer(c: string) { Contains(c, "BKN") || Contains(c, "OVC") }

  /** The ladder applied to the METAR that was found. */
  function SeverityOfReport(metar: string): Severity {
    var decoded := DecodeMetar(metar);
    if decoded.weather.Some? && Any(decoded.weather.value, IsSevereCode) then SevereWx
    else if decoded.weather.Some? || (decoded.clouds.Some? && Any(decoded.clouds.value, IsCeilingLayer)) then SigWx
    else Vfr
  }

  /** The colour of the waypoint `icao`: green when no METAR starts with its code. */
  function SeverityAt(metars: seq<string>, icao: string): Severity {
    match FindMetar(metars, icao)
    case None => Vfr
    case Some(metar) => SeverityOfReport(metar)
  }

  /** `getWindInfo(metar)` and `getVisibilityInfo(metar)` in the summary, or `N/A` without a METAR. */
  function WindText(metar: Option<string>): string {
    if metar.Some? then WindInfo(metar.value) else "N/A"
  }

  function VisibilityText(metar: Option<string>): string {
    if metar.Some? then VisibilityInfo(metar.value) else "N/A"
  }

  /**
   * One waypoint of `generateWeatherSummary`: the class and label start at VFR
   * and are overwritten by the first rung of the ladder that applies.
   */
  method ClassifyWaypoint(metars: seq<string>, icao: string) returns (weatherCondition: string, weatherLabel: string, wind: string, visibility: string)
    ensures weatherCondition == SeverityClass(SeverityAt(metars, icao))
    ensures weatherLabel == SeverityLabel(SeverityAt(metars, icao))
    ensures wind == WindText(FindMetar(metars, icao)) && visibility == VisibilityText(FindMetar(metars, icao))
  {
    var metar := FindMetar(metars, icao);
    weatherCondition := "vfr";
    weatherLabel := "VFR";
    if metar.Some? {
      var decoded := DecodeMetar(metar.value);
      if decoded.weather.Some? && Any(decoded.weather.value, IsSevereCode) {
        weatherCondition := "severe-wx";
        weatherLabel := "SEVERE-WX";
      } else if decoded.weather.Some? || (decoded.clouds.Some? && Any(decoded.clouds.value, IsCeilingLayer)) {
        weatherCondition := "sig-wx";
        weatherLabel := "SIG-WX";
      }
    }
    wind := WindText(metar);
    visibility := VisibilityText(metar);
  }

  /** The waypoint is severe exactly when the METAR found lists a bare `TS`, `SQ` or `FC`. */
  lemma SevereIff(metars: seq<string>, icao: string)
    ensures SeverityAt(metars, icao) == SevereWx <==>
      && FindMetar(metars, icao).Some?
      && var weather := DecodeMetar(FindMetar(metars, icao).value).weather;
         weather.Some? && exists i :: 0 <= i < |weather.value| && IsSevereCode(weather.value[i])
  {
  }

  /**
   * The waypoint is marked as significant weather exactly when it is not severe
   * and the METAR found lists any weather, or a broken or overcast layer.
   */
  lemma SigWxIff(metars: seq<string>, icao: string)
    ensures SeverityAt(metars, icao) == SigWx <==>
      && FindMetar(metars, icao).Some?
      && SeverityAt(metars, icao) != SevereWx
      && var decoded := DecodeMetar(FindMetar(metars, icao).value);
         || decoded.weather.Some?
         || (decoded.clouds.Some? && exists i :: 0 <= i < |decoded.clouds.value| && IsCeilingLayer(decoded.clouds.value[i]))
  {
  }

  /** Without a METAR for the waypoint it is VFR. */
  lemma NoMetarIsVfr(metars: seq<string>, icao: string)
    requires forall i :: 0 <= i < |metars| ==> !StartsWith(metars[i], icao)
    ensures SeverityAt(metars, icao) == Vfr
    ensures WindText(FindMetar(metars, icao)) == "N/A" && VisibilityText(FindMetar(metars, icao)) == "N/A"
  {
  }

  /** The METAR used is the first one starting with the code. */
  lemma {:induction false} FindMetarFirst(metars: seq<string>, icao: string)
    requires FindMetar(metars, icao).Some?
    ensures exists i :: (0 <= i < |metars| && metars[i] == FindMetar(metars, icao).value
      && forall j :: 0 <= j < i ==> !StartsWith(metars[j], icao))
  {
    if !StartsWith(metars[0], icao) {
      FindMetarFirst(metars[1..], icao);
      var i :| (0 <= i < |metars[1..]| && metars[1..][i] == FindMetar(metars[1..], icao).value
        && forall j :: 0 <= j < i ==> !StartsWith(metars[1..][j], icao));
      assert metars[i + 1] == metars[1..][i];
      forall j | 0 <= j < i + 1 ensures !StartsWith(metars[j], icao) {
        if j > 0 { assert metars[j] == metars[1..][j - 1]; }
      }
    } else {
      assert metars[0] == FindMetar(metars, icao).value;
    }
  }

  /**
   * A signed thunderstorm is matched with its sign, and the match is not one of
   * the severe codes: `+TS` on its own colours a waypoint as significant weather,
   * not as severe.
   */
  lemma WeatherKeepsSign(s: string, p: nat)
    requires p + 3 <= |s| && IsSign(s[p]) && s[p + 1] == 'T' && s[p + 2] == 'S'
    ensures WeatherAt(s, p) == Some(Match(s[p..p + 3], ["TS"]))
    ensures !IsSevereCode(s[p..p + 3])
  {
    assert s[p + 1..p + 3] == "TS";
    forall j | 0 <= j < 9 ensures !LitAt(s, p + 1, WeatherCodes[j]) {
      assert WeatherCodes[j][0] != 'T';
      assert s[p + 1..p + 3][0] == 'T';
    }
    FirstLitAtIndex(s, p + 1, WeatherCodes, 9);
  }

  /**
   * A METAR whose only weather is a signed thunderstorm: the scan takes `+TS`
   * at `p` and resumes after it, so the `TS` at `p + 1` is not listed, the
   * list is `[+TS]`, and the waypoint is significant weather, not severe.
   */
  lemma SignedThunderstormNotSevere(metar: string, p: nat)
    requires p + 3 <= |metar| && IsSign(metar[p]) && metar[p + 1] == 'T' && metar[p + 2] == 'S'
    requires forall q :: 0 <= q <= |metar| && q != p && q != p + 1 ==> WeatherAt(metar, q).None?
    ensures DecodeMetar(metar).weather == Some([metar[p..p + 3]])
    ensures SeverityOfReport(metar) == SigWx
  {
    WeatherKeepsSign(metar, p);
    var hits := ScanHits(metar, 0, WeatherAt);
    ScanHitsLeftmost(metar, 0, WeatherAt);
    assert hits != [];
    assert hits[0].pos == p;
    assert |hits| == 1;
    var w := MatchAll(metar, 0, WeatherAt);
    assert w == [metar[p..p + 3]];
    assert !Any(w, IsSevereCode);
  }

  // ---------------------------------------------------------------- wind and visibility texts

  /**
   * `(\d{3}|VRB)(\d{2,3})KT` at `p`. The speed is greedy and gives a digit back
   * when `KT` does not follow three; as in `KtWindAt`, both alternatives lead to
   * the same rest of the pattern.
   */
  function WindAt(s: string, p: nat): Option<Match> {
    if Run(s, p, IsDigit) >= 3 || LitAt(s, p, "VRB") then
      var speed := Greedy(2, Min(Run(s, p + 3, IsDigit), 3), (n: nat) => LitAt(s, p + 3 + n, "KT"));
      if speed.Some? then
        var n := speed.value;
        assert LitAt(s, p + 3 + n, "KT");
        Some(Match(s[p..p + 5 + n], [s[p..p + 3], s[p + 3..p + 3 + n]]))
      else None
    else None
  }

  /** `getWindInfo(metar)`. */
  function WindInfo(metar: string): (r: string)
    ensures r == "N/A" <==> Exec(metar, WindAt).None?
  {
    match Exec(metar, WindAt)
    case Some(m) => m.groups[0] + "° at " + m.groups[1] + " knots"
    case None => "N/A"
  }

  /** `getVisibilityInfo(metar)`. */
  function VisibilityInfo(metar: string): (r: string)
    ensures r == "N/A" <==> Exec(metar, VisibilityAt).None?
  {
    match Exec(metar, VisibilityAt)
    case Some(m) => m.groups[0] + " SM"
    case None => "N/A"
  }

  /** A standard wind group `dddss(s)KT` reads as its direction and speed. */
  lemma WindAtOfGroup(s: string, p: nat, direction: string, speed: string)
    requires |direction| == 3 && AllDigits(direction)
    requires (|speed| == 2 || |speed| == 3) && AllDigits(speed)
    requires LitAt(s, p, direction + speed + "KT")
    ensures WindAt(s, p) == Some(Match(direction + speed + "KT", [direction, speed]))
  {
    var n := |speed|;
    LitAtSplit(s, p, direction + speed, "KT");
    LitAtSplit(s, p, direction, speed);
    assert AllDigits(direction + speed);
    LitAtClass(s, p, direction + speed, IsDigit);
    LitAtFirst(s, p + 3 + n, "KT");
    RunUpTo(s, p, 3 + n, IsDigit);
    RunUpTo(s, p + 3, n, IsDigit);
  }

  /** The first standard wind group of the text is what `getWindInfo` shows. */
  lemma WindInfoOfGroup(s: string, p: nat, direction: string, speed: string)
    requires |direction| == 3 && AllDigits(direction)
    requires (|speed| == 2 || |speed| == 3) && AllDigits(speed)
    requires LitAt(s, p, direction + speed + "KT")
    requires forall q :: 0 <= q < p ==> WindAt(s, q).None?
    ensures WindInfo(s) == direction + "° at " + speed + " knots"
  {
    WindAtOfGroup(s, p, direction, speed);
    ExecAt(s, WindAt, p);
  }

  /** The visibility ` <digits>SM` reads as its digits. */
  lemma VisibilityAtOfGroup(s: string, p: nat, digits: string)
    requires |digits| >= 1 && AllDigits(digits)
    requires LitAt(s, p, " ") && LitAt(s, p + 1, digits) && LitAt(s, p + 1 + |digits|, "SM")
    ensures VisibilityAt(s, p).Some? && VisibilityAt(s, p).value.groups == [digits]
  {
    var n := |digits|;
    LitAtClass(s, p + 1, digits, IsDigit);
    LitAtFirst(s, p + 1 + n, "SM");
    RunUpTo(s, p + 1, n, IsDigit);
  }

  /** The first visibility group of the text is what `getVisibilityInfo` shows. */
  lemma VisibilityInfoOfGroup(s: string, p: nat, digits: string)
    requires |digits| >= 1 && AllDigits(digits)
    requires LitAt(s, p, " ") && LitAt(s, p + 1, digits) && LitAt(s, p + 1 + |digits|, "SM")
    requires forall q :: 0 <= q < p ==> VisibilityAt(s, q).None?
    ensures VisibilityInfo(s) == digits + " SM"
  {
    VisibilityAtOfGroup(s, p, digits);
    ExecAt(s, VisibilityAt, p);
  }
}
