/**
 * `formatSIGMET` (script.js:228-290) with `formatTime` and the two description
 * tables (script.js:292-324): a SIGMET, AIRMET or convective SIGMET is shown as
 * up to nine paragraphs, each taken from the first match of its own pattern in
 * the raw advisory.
 */
module Sigmet {
  import opened Wrappers
  import opened Text
  import opened Scan
  import opened Html

  // ---------------------------------------------------------------- patterns

  /**
   * The number of letters in `([A-Z]{1,2}\d{1,2})` at `p`, or 0 when there is
   * no match: a greedy `{1,2}` tries two letters, then one.
   */
  function IdLetters(s: string, p: nat): nat {
    var letters := Run(s, p, IsUpper);
    if letters >= 2 && Run(s, p + 2, IsDigit) >= 1 then 2
    else if letters >= 1 && Run(s, p + 1, IsDigit) >= 1 then 1
    else 0
  }

  /** `([A-Z]{1,2}\d{1,2})`: the digits take up to two. */
  function IdAt(s: string, p: nat): Option<Match> {
    var k := IdLetters(s, p);
    var n := Min(Run(s, p + k, IsDigit), 2);
    if k != 0 then Some(Match(s[p..p + k + n], [s[p..p + k + n]])) else None
  }

  /** The alternatives of `SIGMET|AIRMET|WST`, in the order they are tried. */
  const AdvisoryTypes: seq<string> := ["SIGMET", "AIRMET", "WST"]

  /** `SIGMET|AIRMET|WST`: no capture group. */
  function TypeAt(s: string, p: nat): Option<Match> {
    match FirstLitAt(s, p, AdvisoryTypes)
    case Some(t) => Some(Match(t, []))
    case None => None
  }

  /** `VALID (\d{6})\/(\d{6})`. */
  function ValidAt(s: string, p: nat): Option<Match> {
    if LitAt(s, p, "VALID ") && Run(s, p + 6, IsDigit) >= 6 && LitAt(s, p + 12, "/") && Run(s, p + 13, IsDigit) >= 6
    then Some(Match(s[p..p + 19], [s[p + 6..p + 12], s[p + 13..p + 19]]))
    else None
  }

  /** `AREA ([A-Z0-9]+)`. */
  function AreaAt(s: string, p: nat): Option<Match> {
    var n := Run(s, p + 5, IsUpperOrDigit);
    if LitAt(s, p, "AREA ") && n >= 1 then Some(Match(s[p..p + 5 + n], [s[p + 5..p + 5 + n]]))
    else None
  }

  /** `([A-Z]{4}) FIR`. */
  function FirAt(s: string, p: nat): Option<Match> {
    if Run(s, p, IsUpper) >= 4 && LitAt(s, p + 4, " FIR") then Some(Match(s[p..p + 8], [s[p..p + 4]]))
    else None
  }

  /** The alternatives of the phenomenon pattern, in the order they are tried. */
  const PhenomenonCodes: seq<string> := ["TS", "TURB", "ICE", "MTW", "DS", "SS", "VA", "TC", "RDOACT"]

  /** The alternatives of the intensity pattern, in the order they are tried. */
  const IntensityCodes: seq<string> := ["ISOL", "OCNL", "FRQ", "OBSC", "EMBD", "SQL"]

  /** `\b(a|b|...)\b` for the alternatives `codes`. */
  function WordAt(s: string, p: nat, codes: seq<string>): Option<Match> {
    if Boundary(s, p) then
      match FirstWordAt(s, p, codes)
      case Some(code) => Some(Match(code, [code]))
      case None => None
    else None
  }

  /** `\b(TS|TURB|ICE|MTW|DS|SS|VA|TC|RDOACT)\b`. */
  function PhenomenonAt(s: string, p: nat): Option<Match> { WordAt(s, p, PhenomenonCodes) }

  /** `\b(ISOL|OCNL|FRQ|OBSC|EMBD|SQL)\b`. */
  function IntensityAt(s: string, p: nat): Option<Match> { WordAt(s, p, IntensityCodes) }

  predicate IsCompass(c: char) { c == 'N' || c == 'S' || c == 'E' || c == 'W' }

  /**
   * ` (\d+)KT` at `q`. The greedy `\d+` takes the whole run of digits: giving any
   * back would leave a digit where `K` must be.
   */
  predicate SpeedAt(s: string, q: nat) {
    LitAt(s, q, " ") && Run(s, q + 1, IsDigit) >= 1 && LitAt(s, q + 1 + Run(s, q + 1, IsDigit), "KT")
  }

  /**
   * The number of direction letters in `MOV ([NSEW]{1,2}) (\d+)KT` after `MOV `
   * at `q`, or 0 when there is no match: the greedy `{1,2}` tries two, then one.
   */
  function DirectionAt(s: string, q: nat): nat {
    var n := Run(s, q, IsCompass);
    if n >= 2 && SpeedAt(s, q + 2) then 2
    else if n >= 1 && SpeedAt(s, q + 1) then 1
    else 0
  }

  /** `MOV ([NSEW]{1,2}) (\d+)KT`. */
  function MovementAt(s: string, p: nat): Option<Match> {
    var k := DirectionAt(s, p + 4);
    var q := p + 4 + k;
    var n := Run(s, q + 1, IsDigit);
    if LitAt(s, p, "MOV ") && k != 0 then Some(Match(s[p..q + 3 + n], [s[p + 4..q], s[q + 1..q + 1 + n]]))
    else None
  }

  /** `(\d{3})\/(\d{3})`. */
  function FlightLevelsAt(s: string, p: nat): Option<Match> {
    if Run(s, p, IsDigit) >= 3 && LitAt(s, p + 3, "/") && Run(s, p + 4, IsDigit) >= 3
    then Some(Match(s[p..p + 7], [s[p..p + 3], s[p + 4..p + 7]]))
    else None
  }

  // ---------------------------------------------------------------- the values shown

  /** `formatTime(timeStr)`: `DD/HH:MMZ` from the characters of `DDHHMM`. */
  function FormatTime(t: string): string {
    Substring(t, 0, 2) + "/" + Substring(t, 2, 4) + ":" + Substring(t, 4, 6) + "Z"
  }

  /** `phenomena`: the descriptions of the phenomenon codes. */
  const Phenomena: map<string, string> := map[
    "TS" := "Thunderstorm", "TURB" := "Turbulence", "ICE" := "Icing", "MTW" := "Mountain Wave",
    "DS" := "Dust Storm", "SS" := "Sand Storm", "VA" := "Volcanic Ash", "TC" := "Tropical Cyclone",
    "RDOACT" := "Radioactive Cloud"]

  /** `intensities`: the descriptions of the intensity codes. */
  const Intensities: map<string, string> := map[
    "ISOL" := "Isolated", "OCNL" := "Occasional", "FRQ" := "Frequent", "OBSC" := "Obscured",
    "EMBD" := "Embedded", "SQL" := "Squall Line"]

  /** `table[code] || code`: the description, or the code itself when the table has none. */
  function Describe(table: map<string, string>, code: string): (r: string)
    ensures code in table && table[code] != "" ==> r == table[code]
    ensures code !in table ==> r == code
  {
    if code in table && table[code] != "" then table[code] else code
  }

  /** `getWeatherPhenomenonDescription(code)`. */
  function PhenomenonDescription(code: string): string { Describe(Phenomena, code) }

  /** `getIntensityDescription(code)`. */
  function IntensityDescription(code: string): string { Describe(Intensities, code) }

  function TypeValue(m: Match): string { m.full }

  function ValidValue(m: Match): string { FormatTime(Group(m, 1)) + " to " + FormatTime(Group(m, 2)) }

  function PhenomenonValue(m: Match): string { PhenomenonDescription(Group(m, 1)) }

  function IntensityValue(m: Match): string { IntensityDescription(Group(m, 1)) }

  function MovementValue(m: Match): string { Group(m, 1) + " at " + Group(m, 2) + " knots" }

  function AltitudeValue(m: Match): string { "FL" + Group(m, 1) + " to FL" + Group(m, 2) }

  // ---------------------------------------------------------------- the formatted advisory

  /** The first match of each pattern, in the order the paragraphs are shown. */
  function SigmetMatches(sigmet: string): seq<Option<Match>> {
    [ Exec(sigmet, IdAt), Exec(sigmet, TypeAt), Exec(sigmet, ValidAt), Exec(sigmet, AreaAt), Exec(sigmet, FirAt),
      Exec(sigmet, PhenomenonAt), Exec(sigmet, IntensityAt), Exec(sigmet, MovementAt), Exec(sigmet, FlightLevelsAt) ]
  }

  const SigmetHeadings: seq<string> :=
    ["ID", "Type", "Valid", "Area", "FIR", "Phenomenon", "Intensity", "Movement", "Altitude"]

  /** The nine fields of an advisory whose patterns gave the matches `m`. */
  function FieldsOf(m: seq<Option<Match>>): seq<Option<Section>>
    requires |m| == 9
  {
    [ Field("ID", m[0], CaptureValue), Field("Type", m[1], TypeValue), Field("Valid", m[2], ValidValue),
      Field("Area", m[3], CaptureValue), Field("FIR", m[4], CaptureValue),
      Field("Phenomenon", m[5], PhenomenonValue), Field("Intensity", m[6], IntensityValue),
      Field("Movement", m[7], MovementValue), Field("Altitude", m[8], AltitudeValue) ]
  }

  function SigmetFields(sigmet: string): seq<Option<Section>> { FieldsOf(SigmetMatches(sigmet)) }

  /** The sections shown for an advisory: those whose pattern matched, in display order. */
  function SigmetSections(sigmet: string): seq<Section> { Shown(SigmetFields(sigmet)) }

  const SigmetOpen := "<div class=\"sigmet-details\">"

  /** The advisory's paragraphs inside `<div class="sigmet-details">`. */
  function SigmetHtml(sigmet: string): string {
    SigmetOpen + RenderAll(SigmetSections(sigmet)) + "</div>"
  }

  /** `formatSIGMET(sigmet)`. */
  method FormatSigmet(sigmet: string) returns (formatted: string)
    ensures formatted == SigmetHtml(sigmet)
  {
    formatted := SigmetOpen;
    var idMatch := Exec(sigmet, IdAt);
    var typeMatch := Exec(sigmet, TypeAt);
    var validMatch := Exec(sigmet, ValidAt);
    var areaMatch := Exec(sigmet, AreaAt);
    var firMatch := Exec(sigmet, FirAt);
    var wxMatch := Exec(sigmet, PhenomenonAt);
    var intensityMatch := Exec(sigmet, IntensityAt);
    var movementMatch := Exec(sigmet, MovementAt);
    var altitudeMatch := Exec(sigmet, FlightLevelsAt);

    RenderFields(formatted, SigmetFields(sigmet));

    Paragraphs9(formatted, SigmetFields(sigmet));

    formatted := AddField(formatted, Field("ID", idMatch, CaptureValue));
    formatted := AddField(formatted, Field("Type", typeMatch, TypeValue));
    formatted := AddField(formatted, Field("Valid", validMatch, ValidValue));
    formatted := AddField(formatted, Field("Area", areaMatch, CaptureValue));
    formatted := AddField(formatted, Field("FIR", firMatch, CaptureValue));
    formatted := AddField(formatted, Field("Phenomenon", wxMatch, PhenomenonValue));
    formatted := AddField(formatted, Field("Intensity", intensityMatch, IntensityValue));
    formatted := AddField(formatted, Field("Movement", movementMatch, MovementValue));
    formatted := AddField(formatted, Field("Altitude", altitudeMatch, AltitudeValue));
    formatted := formatted + "</div>";
  }

  // ---------------------------------------------------------------- order and presence

  lemma SigmetHeadingsDistinct()
    ensures Distinct(SigmetHeadings)
  {
  }

  lemma FieldsOfHeaded(m: seq<Option<Match>>)
    requires |m| == 9
    ensures |FieldsOf(m)| == 9 && Headed(FieldsOf(m), SigmetHeadings)
  {
  }

  lemma FieldsOfPresent(m: seq<Option<Match>>, k: nat)
    requires |m| == 9 && k < 9
    ensures FieldsOf(m)[k].Some? <==> m[k].Some?
  {
  }

  /**
   * The paragraphs come in the order ID, Type, Valid, Area, FIR, Phenomenon,
   * Intensity, Movement, Altitude, each under one of those headings, and each
   * is the field its heading names.
   */
  lemma SigmetSectionsInOrder(sigmet: string)
    ensures forall i :: 0 <= i < |SigmetSections(sigmet)| ==>
      Rank(SigmetHeadings, SigmetSections(sigmet)[i].heading) < 9 &&
      SigmetFields(sigmet)[Rank(SigmetHeadings, SigmetSections(sigmet)[i].heading)] == Some(SigmetSections(sigmet)[i])
    ensures forall i, j :: 0 <= i < j < |SigmetSections(sigmet)| ==>
      Rank(SigmetHeadings, SigmetSections(sigmet)[i].heading) < Rank(SigmetHeadings, SigmetSections(sigmet)[j].heading)
  {
    SigmetHeadingsDistinct();
    FieldsOfHeaded(SigmetMatches(sigmet));
    ShownInOrder(SigmetFields(sigmet), SigmetHeadings);
  }

  /** The paragraph under heading `k` is there exactly when pattern `k` matches somewhere in the advisory. */
  lemma SigmetSectionShownIff(sigmet: string, k: nat)
    requires k < 9
    ensures SigmetMatches(sigmet)[k].Some? <==>
      exists i :: 0 <= i < |SigmetSections(sigmet)| && SigmetSections(sigmet)[i].heading == SigmetHeadings[k]
  {
    SigmetHeadingsDistinct();
    FieldsOfHeaded(SigmetMatches(sigmet));
    ShownIff(SigmetFields(sigmet), SigmetHeadings, k);
    FieldsOfPresent(SigmetMatches(sigmet), k);
    assert SigmetSections(sigmet) == Shown(SigmetFields(sigmet));
  }

  /** The details are empty exactly when none of the nine patterns matches. */
  lemma EmptySigmetIff(sigmet: string)
    ensures SigmetHtml(sigmet) == SigmetOpen + "</div>" <==> forall k :: 0 <= k < 9 ==> SigmetMatches(sigmet)[k].None?
  {
    EmptyIff(SigmetOpen, "</div>", SigmetFields(sigmet));
    forall k | 0 <= k < 9 ensures SigmetFields(sigmet)[k].None? <==> SigmetMatches(sigmet)[k].None? {
      FieldsOfPresent(SigmetMatches(sigmet), k);
    }
  }

  // ---------------------------------------------------------------- the identifier

  /** A digit inside a run of letters is impossible, so a letter count that stops inside the run finds no digits. */
  lemma NoDigitInLetters(s: string, p: nat, k: nat)
    requires k < Run(s, p, IsUpper)
    ensures Run(s, p + k, IsDigit) == 0
  {
    assert IsUpper(s[p + k]);
  }

  /** The letters of an identifier are the whole run of letters, when it is one or two long and a digit follows. */
  lemma IdLettersIsRun(s: string, p: nat)
    ensures var letters := Run(s, p, IsUpper);
      IdLetters(s, p) == if 1 <= letters <= 2 && Run(s, p + letters, IsDigit) >= 1 then letters else 0
  {
    var letters := Run(s, p, IsUpper);
    if letters >= 2 { NoDigitInLetters(s, p, 1); }
    if letters >= 3 { NoDigitInLetters(s, p, 2); }
  }

  /**
   * An identifier starts at `p` exactly when one or two capital letters, taken
   * as a whole run, are followed by a digit; it is those letters and at most two
   * digits.
   */
  lemma IdAtIff(s: string, p: nat)
    ensures var letters := Run(s, p, IsUpper);
      IdAt(s, p).Some? <==> 1 <= letters <= 2 && Run(s, p + letters, IsDigit) >= 1
    ensures var letters := Run(s, p, IsUpper);
      IdAt(s, p).Some? ==> IdAt(s, p).value.full == s[p..p + letters + Min(Run(s, p + letters, IsDigit), 2)]
  {
    IdLettersIsRun(s, p);
  }

  /**
   * Inside a longer word the identifier starts at its last two letters: in a
   * run of two or more capital letters followed by a digit, no identifier
   * starts before the last two letters, and one starts there.
   */
  lemma IdAtEndOfWord(s: string, p: nat)
    requires Run(s, p, IsUpper) >= 2 && Run(s, p + Run(s, p, IsUpper), IsDigit) >= 1
    ensures var q := p + Run(s, p, IsUpper) - 2;
      IdAt(s, q).Some? && forall j :: p <= j < q ==> IdAt(s, j).None?
  {
    var letters := Run(s, p, IsUpper);
    var q := p + letters - 2;
    RunSuffix(s, p, letters - 2, IsUpper);
    IdAtIff(s, q);
    forall j | p <= j < q ensures IdAt(s, j).None? {
      RunSuffix(s, p, j - p, IsUpper);
      IdAtIff(s, j);
    }
  }

  // ---------------------------------------------------------------- the type

  /** There is no Type paragraph exactly when none of `SIGMET`, `AIRMET`, `WST` occurs; otherwise it is one of them. */
  lemma TypeIff(sigmet: string)
    ensures Exec(sigmet, TypeAt).None? <==> forall t :: t in AdvisoryTypes ==> !Contains(sigmet, t)
    ensures Exec(sigmet, TypeAt).Some? ==>
      TypeValue(Exec(sigmet, TypeAt).value) in AdvisoryTypes && Contains(sigmet, TypeValue(Exec(sigmet, TypeAt).value))
  {
    forall t | t in AdvisoryTypes && Contains(sigmet, t) ensures Exec(sigmet, TypeAt).Some? {
      var i :| 0 <= i <= |sigmet| && LitAt(sigmet, i, t);
      assert TypeAt(sigmet, i).Some?;
    }
    if Exec(sigmet, TypeAt).Some? {
      var q :| 0 <= q <= |sigmet| && TypeAt(sigmet, q) == Exec(sigmet, TypeAt);
      assert LitAt(sigmet, q, TypeValue(Exec(sigmet, TypeAt).value));
    }
  }

  // ---------------------------------------------------------------- the validity period

  /** For a six-character time the separators go after the day and the hour, and taking them out gives the time back. */
  lemma FormatTimeOfSix(t: string)
    requires |t| == 6
    ensures |FormatTime(t)| == 9
    ensures FormatTime(t)[2] == '/' && FormatTime(t)[5] == ':' && FormatTime(t)[8] == 'Z'
    ensures FormatTime(t)[0..2] + FormatTime(t)[3..5] + FormatTime(t)[6..8] == t
  {
    var r := FormatTime(t);
    assert r == t[0..2] + "/" + t[2..4] + ":" + t[4..6] + "Z";
    assert r[0..2] == t[0..2] && r[3..5] == t[2..4] && r[6..8] == t[4..6];
    assert t[0..2] + t[2..4] + t[4..6] == t;
  }

  /** The Valid paragraph of a match: the start and the end, each a six-digit time written `DD/HH:MMZ`. */
  lemma ValidValueAt(s: string, p: nat)
    requires ValidAt(s, p).Some?
    ensures p + 19 <= |s|
    ensures ValidValue(ValidAt(s, p).value) == FormatTime(s[p + 6..p + 12]) + " to " + FormatTime(s[p + 13..p + 19])
    ensures AllDigits(s[p + 6..p + 12]) && AllDigits(s[p + 13..p + 19])
    ensures |ValidValue(ValidAt(s, p).value)| == 22
  {
    FormatTimeOfSix(s[p + 6..p + 12]);
    FormatTimeOfSix(s[p + 13..p + 19]);
    var start, end := s[p + 6..p + 12], s[p + 13..p + 19];
    forall i | 0 <= i < 6 ensures IsDigit(start[i]) && IsDigit(end[i]) {
      assert start[i] == s[p + 6 + i] && end[i] == s[p + 13 + i];
    }
  }

  /**
   * The altitude pattern also matches inside a validity period: the last three
   * digits of the start time, the slash and the first three of the end time.
   */
  lemma FlightLevelsInValid(s: string, p: nat)
    requires ValidAt(s, p).Some?
    ensures FlightLevelsAt(s, p + 9) == Some(Match(s[p + 9..p + 16], [s[p + 9..p + 12], s[p + 13..p + 16]]))
  {
    RunSuffix(s, p + 6, 3, IsDigit);
    LitAtFirst(s, p + 12, "/");
  }

  /** So an advisory with a validity period always gets an Altitude paragraph. */
  lemma ValidGivesAltitude(sigmet: string)
    requires Exec(sigmet, ValidAt).Some?
    ensures Exec(sigmet, FlightLevelsAt).Some?
  {
    var q :| 0 <= q <= |sigmet| && ValidAt(sigmet, q) == Exec(sigmet, ValidAt);
    FlightLevelsInValid(sigmet, q);
  }

  // ---------------------------------------------------------------- the FIR

  /** A FIR match is four letters that end a run of letters, then ` FIR`. */
  lemma FirAtIff(s: string, p: nat)
    ensures FirAt(s, p).Some? <==> Run(s, p, IsUpper) == 4 && LitAt(s, p + 4, " FIR")
  {
    if LitAt(s, p + 4, " FIR") {
      LitAtFirst(s, p + 4, " FIR");
    }
  }

  // ---------------------------------------------------------------- phenomenon and intensity

  /** Every code the phenomenon pattern can give has its own description, different from the code. */
  lemma PhenomenaDescribeEveryCode()
    ensures forall c :: c in PhenomenonCodes ==> c in Phenomena && Phenomena[c] != "" && PhenomenonDescription(c) == Phenomena[c] != c
    ensures forall c :: c in Phenomena ==> c in PhenomenonCodes
  {
  }

  /** Every code the intensity pattern can give has its own description, different from the code. */
  lemma IntensitiesDescribeEveryCode()
    ensures forall c :: c in IntensityCodes ==> c in Intensities && Intensities[c] != "" && IntensityDescription(c) == Intensities[c] != c
    ensures forall c :: c in Intensities ==> c in IntensityCodes
  {
  }

  /** A word match is one of the codes, standing as a whole word. */
  lemma WordAtGivesCode(s: string, p: nat, codes: seq<string>)
    requires WordAt(s, p, codes).Some?
    ensures var code := Group(WordAt(s, p, codes).value, 1);
      code in codes && LitAt(s, p, code) && Boundary(s, p) && Boundary(s, p + |code|)
  {
  }

  /** The Phenomenon paragraph always shows a description from the table, never the bare code. */
  lemma PhenomenonDescribed(sigmet: string)
    requires Exec(sigmet, PhenomenonAt).Some?
    ensures var code := Group(Exec(sigmet, PhenomenonAt).value, 1);
      code in Phenomena && PhenomenonValue(Exec(sigmet, PhenomenonAt).value) == Phenomena[code]
  {
    var q :| 0 <= q <= |sigmet| && PhenomenonAt(sigmet, q) == Exec(sigmet, PhenomenonAt);
    WordAtGivesCode(sigmet, q, PhenomenonCodes);
    PhenomenaDescribeEveryCode();
  }

  /** The Intensity paragraph always shows a description from the table, never the bare code. */
  lemma IntensityDescribed(sigmet: string)
    requires Exec(sigmet, IntensityAt).Some?
    ensures var code := Group(Exec(sigmet, IntensityAt).value, 1);
      code in Intensities && IntensityValue(Exec(sigmet, IntensityAt).value) == Intensities[code]
  {
    var q :| 0 <= q <= |sigmet| && IntensityAt(sigmet, q) == Exec(sigmet, IntensityAt);
    WordAtGivesCode(sigmet, q, IntensityCodes);
    IntensitiesDescribeEveryCode();
  }

  // ---------------------------------------------------------------- movement

  /** A direction letter inside a run of them is not a space, so no speed starts there. */
  lemma NoSpeedInDirection(s: string, q: nat, k: nat)
    requires k < Run(s, q, IsCompass)
    ensures !SpeedAt(s, q + k)
  {
    assert IsCompass(s[q + k]);
    if LitAt(s, q + k, " ") { LitAtFirst(s, q + k, " "); }
  }

  /** The direction is the whole run of direction letters, when it is one or two long and a speed follows. */
  lemma DirectionAtIsRun(s: string, q: nat)
    ensures var dir := Run(s, q, IsCompass);
      DirectionAt(s, q) == if 1 <= dir <= 2 && SpeedAt(s, q + dir) then dir else 0
  {
    var dir := Run(s, q, IsCompass);
    if dir >= 2 { NoSpeedInDirection(s, q, 1); }
    if dir >= 3 { NoSpeedInDirection(s, q, 2); }
  }

  /**
   * `MOV` matches at `p` exactly when one or two direction letters, taken as a
   * whole run, are followed by a space, digits and `KT`.
   */
  lemma MovementAtIff(s: string, p: nat)
    ensures var dir := Run(s, p + 4, IsCompass);
      MovementAt(s, p).Some? <==> LitAt(s, p, "MOV ") && 1 <= dir <= 2 && SpeedAt(s, p + 4 + dir)
  {
    DirectionAtIsRun(s, p + 4);
  }

  /** The Movement paragraph of a match: the whole run of direction letters and the whole run of digits. */
  lemma MovementValueAt(s: string, p: nat)
    requires MovementAt(s, p).Some?
    ensures var dir := Run(s, p + 4, IsCompass); var q := p + 4 + dir; var n := Run(s, q + 1, IsDigit);
      q + 1 + n <= |s| && MovementValue(MovementAt(s, p).value) == s[p + 4..q] + " at " + s[q + 1..q + 1 + n] + " knots"
  {
    DirectionAtIsRun(s, p + 4);
  }
}
