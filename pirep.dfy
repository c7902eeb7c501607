/**
 * `formatPIREP` (script.js:207-227): a pilot report is shown as up to seven
 * paragraphs, each one taken from the first match of its own pattern in the
 * raw report.
 */
module Pirep {
  import opened Wrappers
  import opened Text
  import opened Scan
  import opened Html

  // ---------------------------------------------------------------- patterns

  /** `FL(\d{3})`. */
  function FlightLevelAt(s: string, p: nat): Option<Match> {
    if LitAt(s, p, "FL") && Run(s, p + 2, IsDigit) >= 3 then Some(Match(s[p..p + 5], [s[p + 2..p + 5]]))
    else None
  }

  /**
   * The offsets `(\d{2,3})(\d{2,3})` at `q`, as their two lengths. The first
   * group is greedy: it tries three digits, and gives one back when that leaves
   * fewer than two for the second group, which then takes up to three.
   */
  function OffsetsAt(s: string, q: nat): Option<(nat, nat)> {
    var d := Run(s, q, IsDigit);
    if d >= 3 && Run(s, q + 3, IsDigit) >= 2 then Some((3, Min(Run(s, q + 3, IsDigit), 3)))
    else if d >= 2 && Run(s, q + 2, IsDigit) >= 2 then Some((2, Min(Run(s, q + 2, IsDigit), 3)))
    else None
  }

  /**
   * The length of the fix in `([A-Z]{2,3})(\d{2,3})(\d{2,3})` at `q`, or 0 when
   * there is none: a greedy `{2,3}` tries three letters, then two.
   */
  function FixAt(s: string, q: nat): nat {
    var letters := Run(s, q, IsUpper);
    if letters >= 3 && OffsetsAt(s, q + 3).Some? then 3
    else if letters >= 2 && OffsetsAt(s, q + 2).Some? then 2
    else 0
  }

  /** The match of the fix of length `fix` and the offsets that follow it. */
  function OverMatch(s: string, p: nat, fix: nat): Match
    requires OffsetsAt(s, p + 4 + fix).Some?
  {
    var q := p + 4;
    var a := OffsetsAt(s, q + fix).value.0;
    var b := OffsetsAt(s, q + fix).value.1;
    OffsetsSplit(s, q + fix);
    Match(s[p..q + fix + a + b], [s[q..q + fix], s[q + fix..q + fix + a], s[q + fix + a..q + fix + a + b]])
  }

  /** `\/OV ([A-Z]{2,3})(\d{2,3})(\d{2,3})`. */
  function OverAt(s: string, p: nat): Option<Match> {
    var fix := FixAt(s, p + 4);
    if LitAt(s, p, "/OV ") && fix != 0 then Some(OverMatch(s, p, fix)) else None
  }

  /** `(\d{2})(\d{2})Z`. */
  function ZuluAt(s: string, p: nat): Option<Match> {
    if Run(s, p, IsDigit) >= 4 && LitAt(s, p + 4, "Z") then Some(Match(s[p..p + 5], [s[p..p + 2], s[p + 2..p + 4]]))
    else None
  }

  /** `<tag>([A-Z]+)`. */
  function TagAt(s: string, p: nat, tag: string): Option<Match> {
    var n := Run(s, p + |tag|, IsUpper);
    if LitAt(s, p, tag) && n >= 1 then Some(Match(s[p..p + |tag| + n], [s[p + |tag|..p + |tag| + n]]))
    else None
  }

  /** `\/TP ([A-Z]+)`. */
  function TypeAt(s: string, p: nat): Option<Match> { TagAt(s, p, "/TP ") }

  /** `\/TB ([A-Z]+)`. */
  function TurbulenceAt(s: string, p: nat): Option<Match> { TagAt(s, p, "/TB ") }

  /** `\/IC ([A-Z]+)`. */
  function IcingAt(s: string, p: nat): Option<Match> { TagAt(s, p, "/IC ") }

  /** `\/RMK (.+)`: the rest of the line. */
  function RemarksAt(s: string, p: nat): Option<Match> {
    var n := Run(s, p + 5, IsNotLineTerminator);
    if LitAt(s, p, "/RMK ") && n >= 1 then Some(Match(s[p..p + 5 + n], [s[p + 5..p + 5 + n]]))
    else None
  }

  // ---------------------------------------------------------------- the formatted report

  function AltitudeValue(m: Match): string { "FL" + Group(m, 1) }

  function LocationValue(m: Match): string { Group(m, 1) + " " + Group(m, 2) + Group(m, 3) }

  function TimeValue(m: Match): string { Group(m, 1) + ":" + Group(m, 2) + "Z" }

  /** The first match of each pattern, in the order the paragraphs are shown. */
  function PirepMatches(pirep: string): seq<Option<Match>> {
    [ Exec(pirep, FlightLevelAt), Exec(pirep, OverAt), Exec(pirep, ZuluAt), Exec(pirep, TypeAt),
      Exec(pirep, TurbulenceAt), Exec(pirep, IcingAt), Exec(pirep, RemarksAt) ]
  }

  const PirepHeadings: seq<string> := ["Altitude", "Location", "Time", "Type", "Turbulence", "Icing", "Remarks"]

  function PirepFields(pirep: string): seq<Option<Section>> { FieldsOf(PirepMatches(pirep)) }

  /** The seven fields of a report whose patterns gave the matches `m`. */
  function FieldsOf(m: seq<Option<Match>>): seq<Option<Section>>
    requires |m| == 7
  {
    [ Field("Altitude", m[0], AltitudeValue), Field("Location", m[1], LocationValue),
      Field("Time", m[2], TimeValue), Field("Type", m[3], CaptureValue),
      Field("Turbulence", m[4], CaptureValue), Field("Icing", m[5], CaptureValue),
      Field("Remarks", m[6], CaptureValue) ]
  }

  /** The sections shown for a report: those whose pattern matched, in display order. */
  function PirepSections(pirep: string): seq<Section> { Shown(PirepFields(pirep)) }

  const PirepOpen := "<div class=\"pirep-item\">"

  /** The report's paragraphs inside `<div class="pirep-item">`. */
  function PirepHtml(pirep: string): string {
    PirepOpen + RenderAll(PirepSections(pirep)) + "</div>"
  }

  /** `formatPIREP(pirep)`. */
  method FormatPirep(pirep: string) returns (formatted: string)
    ensures formatted == PirepHtml(pirep)
  {
    var altitude := Exec(pirep, FlightLevelAt);
    var location := Exec(pirep, OverAt);
    var time := Exec(pirep, ZuluAt);
    var weather := Exec(pirep, TypeAt);
    var remarks := Exec(pirep, RemarksAt);
    var turbulence := Exec(pirep, TurbulenceAt);
    var icing := Exec(pirep, IcingAt);

    formatted := PirepOpen;
    RenderFields(formatted, PirepFields(pirep));
    Paragraphs7(formatted, PirepFields(pirep));
    formatted := AddField(formatted, Field("Altitude", altitude, AltitudeValue));
    formatted := AddField(formatted, Field("Location", location, LocationValue));
    formatted := AddField(formatted, Field("Time", time, TimeValue));
    formatted := AddField(formatted, Field("Type", weather, CaptureValue));
    formatted := AddField(formatted, Field("Turbulence", turbulence, CaptureValue));
    formatted := AddField(formatted, Field("Icing", icing, CaptureValue));
    formatted := AddField(formatted, Field("Remarks", remarks, CaptureValue));
    formatted := formatted + "</div>";
  }

  // ---------------------------------------------------------------- order and presence

  lemma PirepHeadingsDistinct()
    ensures Distinct(PirepHeadings)
  {
  }

  lemma PirepFieldsHeaded(pirep: string)
    ensures |PirepFields(pirep)| == 7 && Headed(PirepFields(pirep), PirepHeadings)
  {
    FieldsOfHeaded(PirepMatches(pirep));
  }

  lemma FieldsOfHeaded(m: seq<Option<Match>>)
    requires |m| == 7
    ensures |FieldsOf(m)| == 7 && Headed(FieldsOf(m), PirepHeadings)
  {
  }

  /**
   * The paragraphs come in the order Altitude, Location, Time, Type,
   * Turbulence, Icing, Remarks, each under one of those headings, and each is
   * the field its heading names.
   */
  lemma PirepSectionsInOrder(pirep: string)
    ensures forall i :: 0 <= i < |PirepSections(pirep)| ==>
      Rank(PirepHeadings, PirepSections(pirep)[i].heading) < 7 &&
      PirepFields(pirep)[Rank(PirepHeadings, PirepSections(pirep)[i].heading)] == Some(PirepSections(pirep)[i])
    ensures forall i, j :: 0 <= i < j < |PirepSections(pirep)| ==>
      Rank(PirepHeadings, PirepSections(pirep)[i].heading) < Rank(PirepHeadings, PirepSections(pirep)[j].heading)
  {
    PirepHeadingsDistinct();
    PirepFieldsHeaded(pirep);
    ShownInOrder(PirepFields(pirep), PirepHeadings);
  }

  /** The paragraph under heading `k` is there exactly when pattern `k` matches somewhere in the report. */
  lemma PirepSectionShownIff(pirep: string, k: nat)
    requires k < 7
    ensures PirepMatches(pirep)[k].Some? <==>
      exists i :: 0 <= i < |PirepSections(pirep)| && PirepSections(pirep)[i].heading == PirepHeadings[k]
  {
    PirepHeadingsDistinct();
    PirepFieldsHeaded(pirep);
    ShownIff(PirepFields(pirep), PirepHeadings, k);
    PirepFieldPresent(pirep, k);
    assert PirepSections(pirep) == Shown(PirepFields(pirep));
  }

  lemma PirepFieldPresent(pirep: string, k: nat)
    requires k < 7
    ensures PirepFields(pirep)[k].Some? <==> PirepMatches(pirep)[k].Some?
  {
    FieldsOfPresent(PirepMatches(pirep), k);
  }

  lemma FieldsOfPresent(m: seq<Option<Match>>, k: nat)
    requires |m| == 7 && k < 7
    ensures FieldsOf(m)[k].Some? <==> m[k].Some?
  {
  }

  /** The item is empty exactly when none of the seven patterns matches. */
  lemma EmptyPirepIff(pirep: string)
    ensures PirepHtml(pirep) == PirepOpen + "</div>" <==> forall k :: 0 <= k < 7 ==> PirepMatches(pirep)[k].None?
  {
    EmptyIff(PirepOpen, "</div>", PirepFields(pirep));
    forall k | 0 <= k < 7 ensures PirepFields(pirep)[k].None? <==> PirepMatches(pirep)[k].None? {
      FieldsOfPresent(PirepMatches(pirep), k);
    }
  }

  // ---------------------------------------------------------------- the remarks group

  /**
   * `/RMK (.+)` takes the rest of the line: a non-empty group without a line
   * terminator that ends at the end of the text or just before a line terminator.
   */
  lemma RemarksToLineEnd(s: string, p: nat)
    requires RemarksAt(s, p).Some?
    ensures var r := Group(RemarksAt(s, p).value, 1); var e := p + 5 + |r|;
      && |r| >= 1 && e <= |s| && r == s[p + 5..e]
      && (forall i :: 0 <= i < |r| ==> !IsLineTerminator(r[i]))
      && (e == |s| || IsLineTerminator(s[e]))
  {
    var n := Run(s, p + 5, IsNotLineTerminator);
    var r := s[p + 5..p + 5 + n];
    forall i | 0 <= i < |r| ensures !IsLineTerminator(r[i]) {
      assert r[i] == s[p + 5 + i];
    }
  }

  // ---------------------------------------------------------------- the location group

  /**
   * How `(\d{2,3})(\d{2,3})` divides a run of `d` digits: three and three when
   * there are six or more, three and two for five, two and two for four, and
   * no match for fewer than four.
   */
  lemma OffsetsSplit(s: string, q: nat)
    ensures Run(s, q, IsDigit) >= 6 ==> OffsetsAt(s, q) == Some((3, 3))
    ensures Run(s, q, IsDigit) == 5 ==> OffsetsAt(s, q) == Some((3, 2))
    ensures Run(s, q, IsDigit) == 4 ==> OffsetsAt(s, q) == Some((2, 2))
    ensures Run(s, q, IsDigit) < 4 ==> OffsetsAt(s, q).None?
  {
    var d := Run(s, q, IsDigit);
    if d >= 2 { RunSuffix(s, q, 2, IsDigit); }
    if d >= 3 { RunSuffix(s, q, 3, IsDigit); }
  }

  /** A letter inside a run of letters is not a digit, so no offsets start there. */
  lemma NoOffsetsInLetters(s: string, q: nat, k: nat)
    requires k < Run(s, q, IsUpper)
    ensures OffsetsAt(s, q + k).None?
  {
    assert IsUpper(s[q + k]);
    OffsetsSplit(s, q + k);
  }

  /**
   * `/OV` matches at `p` exactly when two or three capital letters, taken as a
   * whole run, are followed by at least four digits: the fix cannot stop
   * inside a run of letters, since a letter can never start the offsets.
   */
  lemma OverAtIff(s: string, p: nat)
    ensures var q := p + 4; var fix := Run(s, q, IsUpper);
      OverAt(s, p).Some? <==> LitAt(s, p, "/OV ") && 2 <= fix <= 3 && Run(s, q + fix, IsDigit) >= 4
  {
    FixAtIsRun(s, p + 4);
  }

  /** The fix is the whole run of letters, when it is two or three long and four digits follow. */
  lemma FixAtIsRun(s: string, q: nat)
    ensures var letters := Run(s, q, IsUpper);
      FixAt(s, q) == if 2 <= letters <= 3 && Run(s, q + letters, IsDigit) >= 4 then letters else 0
  {
    var letters := Run(s, q, IsUpper);
    if letters > 3 {
      NoOffsetsInLetters(s, q, 2);
      NoOffsetsInLetters(s, q, 3);
    } else if letters == 3 {
      NoOffsetsInLetters(s, q, 2);
      OffsetsSplit(s, q + 3);
    } else if letters == 2 {
      OffsetsSplit(s, q + 2);
    }
  }

  /** A `/OV` match takes the whole run of letters as its fix, and at least four digits follow. */
  lemma OverAtIsOverMatch(s: string, p: nat)
    requires OverAt(s, p).Some?
    ensures Run(s, p + 4 + Run(s, p + 4, IsUpper), IsDigit) >= 4
    ensures OverAt(s, p) == Some(OverMatch(s, p, Run(s, p + 4, IsUpper)))
  {
    var fix := FixAt(s, p + 4);
    assert fix != 0 && OverAt(s, p) == Some(OverMatch(s, p, fix));
    FixAtIsRun(s, p + 4);
  }

  /** The fix of a `/OV` match is the whole run of two or three capital letters after `/OV `. */
  lemma FixOfOverAt(s: string, p: nat)
    requires OverAt(s, p).Some?
    ensures var n := Run(s, p + 4, IsUpper);
      2 <= n <= 3 && p + 4 + n <= |s| && Group(OverAt(s, p).value, 1) == s[p + 4..p + 4 + n]
  {
    var n := Run(s, p + 4, IsUpper);
    OverAtIff(s, p);
    OverAtIsOverMatch(s, p);
    OverMatchSplit(s, p, n, Run(s, p + 4 + n, IsDigit));
  }

  /**
   * The three groups of the `/OV` match whose fix is `fix` letters followed by
   * `d` digits: the fix, then the digits split into offsets of three and three
   * (six or more digits), three and two (five) or two and two (four).
   */
  lemma OverMatchSplit(s: string, p: nat, fix: nat, d: nat)
    requires d == Run(s, p + 4 + fix, IsDigit) && d >= 4
    ensures OffsetsAt(s, p + 4 + fix).Some?
    ensures var q := p + 4; var a := if d >= 5 then 3 else 2;
      && q + fix + Min(d, 6) <= |s|
      && OverMatch(s, p, fix).groups == [s[q..q + fix], s[q + fix..q + fix + a], s[q + fix + a..q + fix + Min(d, 6)]]
  {
    var q := p + 4;
    OffsetsSplit(s, q + fix);
    if d >= 6 {
      OverMatchGroups(s, p, fix, 3, 3);
    } else if d == 5 {
      OverMatchGroups(s, p, fix, 3, 2);
    } else {
      OverMatchGroups(s, p, fix, 2, 2);
    }
  }

  /** The groups of the `/OV` match with a fix of `fix` letters and offsets of `a` and `b` digits. */
  lemma OverMatchGroups(s: string, p: nat, fix: nat, a: nat, b: nat)
    requires OffsetsAt(s, p + 4 + fix) == Some((a, b))
    ensures p + 4 + fix + a + b <= |s|
    ensures OverMatch(s, p, fix).groups == [s[p + 4..p + 4 + fix], s[p + 4 + fix..p + 4 + fix + a], s[p + 4 + fix + a..p + 4 + fix + a + b]]
  {
    OffsetsSplit(s, p + 4 + fix);
  }

  /** The Location paragraph of a `/OV` match: the fix, a space, and the digits after it (at most six). */
  lemma LocationOfOverMatch(s: string, p: nat, fix: nat, d: nat)
    requires d == Run(s, p + 4 + fix, IsDigit) && d >= 4
    ensures OffsetsAt(s, p + 4 + fix).Some?
    ensures var q := p + 4;
      q + fix + Min(d, 6) <= |s| &&
      LocationValue(OverMatch(s, p, fix)) == s[q..q + fix] + " " + s[q + fix..q + fix + Min(d, 6)]
  {
    OverMatchSplit(s, p, fix, d);
    var q := p + 4;
    var a := if d >= 5 then 3 else 2;
    SliceConcat(s, q + fix, q + fix + a, q + fix + Min(d, 6));
    LocationOfGroups(OverMatch(s, p, fix));
  }

  lemma LocationOfGroups(m: Match)
    requires |m.groups| == 3
    ensures LocationValue(m) == m.groups[0] + " " + (m.groups[1] + m.groups[2])
  {
    var g := m.groups;
    assert g[0] + " " + g[1] + g[2] == g[0] + " " + (g[1] + g[2]);
  }
}
