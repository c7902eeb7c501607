/**
 * The shape shared by `formatPIREP` and `formatSIGMET` (script.js:207-290): an
 * opening `<div>`, then one `<p><strong>Heading:</strong> value</p>` paragraph per
 * field whose pattern matched, in a fixed order of fields, then `</div>`.
 *
 * A report's fields are listed in display order as `Option<Section>`, `None`
 * where the pattern did not match; `Shown` keeps the present ones in order.
 */
module Html {
  import opened Wrappers
  import opened Scan

  datatype Section = Section(heading: string, value: string)

  /** `<p><strong>${heading}:</strong> ${value}</p>`. */
  function SectionHtml(s: Section): string {
    "<p><strong>" + s.heading + ":</strong> " + s.value + "</p>"
  }

  /** The paragraphs of `ss`, one after another. */
  function RenderAll(ss: seq<Section>): string {
    if ss == [] then "" else RenderAll(ss[..|ss| - 1]) + SectionHtml(ss[|ss| - 1])
  }

  /** The field `heading`, shown with `value(m)` when its pattern gave the match `m`. */
  function Field(heading: string, m: Option<Match>, value: Match -> string): Option<Section>
    ensures Field(heading, m, value).Some? <==> m.Some?
  {
    match m
    case Some(found) => Some(Section(heading, value(found)))
    case None => None
  }

  /** The value of a field that shows its pattern's first capture group as it is. */
  function CaptureValue(m: Match): string { Group(m, 1) }

  /** The sections that are present, in field order. */
  function Shown(opts: seq<Option<Section>>): seq<Section> {
    if opts == [] then []
    else
      var last := opts[|opts| - 1];
      Shown(opts[..|opts| - 1]) + (if last.Some? then [last.value] else [])
  }

  lemma RenderSnoc(ss: seq<Section>, s: Section)
    ensures RenderAll(ss + [s]) == RenderAll(ss) + SectionHtml(s)
  {
    assert (ss + [s])[..|ss|] == ss;
  }

  lemma ShownSnoc(opts: seq<Option<Section>>, o: Option<Section>)
    ensures Shown(opts + [o]) == Shown(opts) + (if o.Some? then [o.value] else [])
  {
    assert (opts + [o])[..|opts|] == opts;
  }

  /** One step of a formatter: the paragraph of a present field is appended, an absent one adds nothing. */
  lemma RenderStep(opts: seq<Option<Section>>, o: Option<Section>)
    ensures RenderAll(Shown(opts + [o])) == RenderAll(Shown(opts)) + FieldHtml(o)
  {
    ShownSnoc(opts, o);
    if o.Some? {
      RenderSnoc(Shown(opts), o.value);
    } else {
      assert Shown(opts) + [] == Shown(opts);
    }
  }

  /** The paragraph of a field: nothing when it is absent. */
  function FieldHtml(o: Option<Section>): string {
    if o.Some? then SectionHtml(o.value) else ""
  }

  /** `open` followed by the paragraphs of the first `k` fields, from first to last. */
  function Paragraphs(open: string, fields: seq<Option<Section>>, k: nat): string
    requires k <= |fields|
  {
    if k == 0 then open else Paragraphs(open, fields, k - 1) + FieldHtml(fields[k - 1])
  }

  /** The paragraphs of the first `k` fields are those of the sections shown among them. */
  lemma {:induction false} ParagraphsRender(open: string, fields: seq<Option<Section>>, k: nat)
    requires k <= |fields|
    ensures Paragraphs(open, fields, k) == open + RenderAll(Shown(fields[..k]))
  {
    if k == 0 {
      assert fields[..0] == [];
      assert open + "" == open;
    } else {
      ParagraphsRender(open, fields, k - 1);
      var init := fields[..k - 1];
      assert fields[..k] == init + [fields[k - 1]];
      RenderStep(init, fields[k - 1]);
      Regroup(open, RenderAll(Shown(init)), FieldHtml(fields[k - 1]));
    }
  }

  lemma Regroup(a: string, b: string, c: string)
    ensures a + b + c == a + (b + c)
  {
  }

  /** A formatter's paragraphs, written field by field, are those of the sections shown. */
  lemma RenderFields(open: string, fields: seq<Option<Section>>)
    ensures Paragraphs(open, fields, |fields|) == open + RenderAll(Shown(fields))
  {
    ParagraphsRender(open, fields, |fields|);
    assert fields[..|fields|] == fields;
  }

  /** `open` and the paragraphs of seven fields, one after another. */
  lemma Paragraphs7(open: string, fields: seq<Option<Section>>)
    requires |fields| == 7
    ensures Paragraphs(open, fields, 7)
         == open + FieldHtml(fields[0]) + FieldHtml(fields[1]) + FieldHtml(fields[2]) + FieldHtml(fields[3])
            + FieldHtml(fields[4]) + FieldHtml(fields[5]) + FieldHtml(fields[6])
  {
    assert Paragraphs(open, fields, 1) == open + FieldHtml(fields[0]);
    assert Paragraphs(open, fields, 2) == open + FieldHtml(fields[0]) + FieldHtml(fields[1]);
    assert Paragraphs(open, fields, 3) == open + FieldHtml(fields[0]) + FieldHtml(fields[1]) + FieldHtml(fields[2]);
    assert Paragraphs(open, fields, 4) == open + FieldHtml(fields[0]) + FieldHtml(fields[1]) + FieldHtml(fields[2]) + FieldHtml(fields[3]);
    assert Paragraphs(open, fields, 5) == open + FieldHtml(fields[0]) + FieldHtml(fields[1]) + FieldHtml(fields[2]) + FieldHtml(fields[3]) + FieldHtml(fields[4]);
    assert Paragraphs(open, fields, 6) == open + FieldHtml(fields[0]) + FieldHtml(fields[1]) + FieldHtml(fields[2]) + FieldHtml(fields[3]) + FieldHtml(fields[4]) + FieldHtml(fields[5]);
    assert Paragraphs(open, fields, 7) == open + FieldHtml(fields[0]) + FieldHtml(fields[1]) + FieldHtml(fields[2]) + FieldHtml(fields[3]) + FieldHtml(fields[4]) + FieldHtml(fields[5]) + FieldHtml(fields[6]);
  }

  /** `open` and the paragraphs of nine fields, one after another. */
  lemma Paragraphs9(open: string, fields: seq<Option<Section>>)
    requires |fields| == 9
    ensures Paragraphs(open, fields, 9)
         == open + FieldHtml(fields[0]) + FieldHtml(fields[1]) + FieldHtml(fields[2]) + FieldHtml(fields[3])
            + FieldHtml(fields[4]) + FieldHtml(fields[5]) + FieldHtml(fields[6]) + FieldHtml(fields[7]) + FieldHtml(fields[8])
  {
    assert Paragraphs(open, fields, 1) == open + FieldHtml(fields[0]);
    assert Paragraphs(open, fields, 2) == open + FieldHtml(fields[0]) + FieldHtml(fields[1]);
    assert Paragraphs(open, fields, 3) == open + FieldHtml(fields[0]) + FieldHtml(fields[1]) + FieldHtml(fields[2]);
    assert Paragraphs(open, fields, 4) == open + FieldHtml(fields[0]) + FieldHtml(fields[1]) + FieldHtml(fields[2]) + FieldHtml(fields[3]);
    assert Paragraphs(open, fields, 5) == open + FieldHtml(fields[0]) + FieldHtml(fields[1]) + FieldHtml(fields[2]) + FieldHtml(fields[3]) + FieldHtml(fields[4]);
    assert Paragraphs(open, fields, 6) == open + FieldHtml(fields[0]) + FieldHtml(fields[1]) + FieldHtml(fields[2]) + FieldHtml(fields[3]) + FieldHtml(fields[4]) + FieldHtml(fields[5]);
    assert Paragraphs(open, fields, 7) == open + FieldHtml(fields[0]) + FieldHtml(fields[1]) + FieldHtml(fields[2]) + FieldHtml(fields[3]) + FieldHtml(fields[4]) + FieldHtml(fields[5]) + FieldHtml(fields[6]);
    assert Paragraphs(open, fields, 8) == open + FieldHtml(fields[0]) + FieldHtml(fields[1]) + FieldHtml(fields[2]) + FieldHtml(fields[3]) + FieldHtml(fields[4]) + FieldHtml(fields[5]) + FieldHtml(fields[6]) + FieldHtml(fields[7]);
    assert Paragraphs(open, fields, 9) == open + FieldHtml(fields[0]) + FieldHtml(fields[1]) + FieldHtml(fields[2]) + FieldHtml(fields[3]) + FieldHtml(fields[4]) + FieldHtml(fields[5]) + FieldHtml(fields[6]) + FieldHtml(fields[7]) + FieldHtml(fields[8]);
  }

  /** `if (match) formatted += <paragraph>`. */
  method AddField(formatted: string, o: Option<Section>) returns (r: string)
    ensures r == formatted + FieldHtml(o)
  {
    r := formatted;
    if o.Some? {
      r := r + SectionHtml(o.value);
    }
  }

  // ---------------------------------------------------------------- order and presence

  predicate Distinct(headings: seq<string>) {
    forall i, j :: 0 <= i < j < |headings| ==> headings[i] != headings[j]
  }

  /** The position of `heading` in `headings`, or `|headings|` when it is not there. */
  function Rank(headings: seq<string>, heading: string): (r: nat)
    ensures r <= |headings|
    ensures r < |headings| ==> headings[r] == heading
  {
    if headings == [] then 0
    else if headings[0] == heading then 0
    else 1 + Rank(headings[1..], heading)
  }

  lemma {:induction false} RankOfDistinct(headings: seq<string>, k: nat)
    requires Distinct(headings) && k < |headings|
    ensures Rank(headings, headings[k]) == k
  {
    if k > 0 {
      assert headings[0] != headings[k];
      assert headings[1..][k - 1] == headings[k];
      RankOfDistinct(headings[1..], k - 1);
    }
  }

  /** Field `k` of `opts`, when present, carries heading `k` of `headings`. */
  predicate Headed(opts: seq<Option<Section>>, headings: seq<string>) {
    |opts| <= |headings| && forall k :: 0 <= k < |opts| && opts[k].Some? ==> opts[k].value.heading == headings[k]
  }

  /**
   * The shown sections follow the order of the headings, each shown section is
   * the field its heading names, and a heading is shown exactly when its field is
   * present.
   */
  lemma {:induction false} ShownInOrder(opts: seq<Option<Section>>, headings: seq<string>)
    requires Distinct(headings) && Headed(opts, headings)
    ensures forall i :: 0 <= i < |Shown(opts)| ==> Rank(headings, Shown(opts)[i].heading) < |opts|
    ensures forall i :: 0 <= i < |Shown(opts)| ==> opts[Rank(headings, Shown(opts)[i].heading)] == Some(Shown(opts)[i])
    ensures forall i, j :: 0 <= i < j < |Shown(opts)| ==> Rank(headings, Shown(opts)[i].heading) < Rank(headings, Shown(opts)[j].heading)
  {
    if opts != [] {
      var n := |opts| - 1;
      var init := opts[..n];
      assert Headed(init, headings);
      ShownInOrder(init, headings);
      var ss := Shown(opts);
      var before := Shown(init);
      if opts[n].Some? {
        RankOfDistinct(headings, n);
        assert ss == before + [opts[n].value];
        forall i | 0 <= i < |ss|
          ensures Rank(headings, ss[i].heading) < |opts| && opts[Rank(headings, ss[i].heading)] == Some(ss[i])
        {
          if i < |before| { assert ss[i] == before[i]; assert opts[Rank(headings, ss[i].heading)] == init[Rank(headings, ss[i].heading)]; }
        }
      } else {
        assert ss == before;
        forall i | 0 <= i < |ss|
          ensures Rank(headings, ss[i].heading) < |opts| && opts[Rank(headings, ss[i].heading)] == Some(ss[i])
        {
          var r := Rank(headings, before[i].heading);
          assert r < n && init[r] == Some(before[i]);
          assert opts[r] == init[r];
        }
      }
    }
  }

  /** A heading is shown exactly when its field is present. */
  lemma {:induction false} ShownIff(opts: seq<Option<Section>>, headings: seq<string>, k: nat)
    requires Distinct(headings) && Headed(opts, headings) && k < |opts|
    ensures opts[k].Some? <==> exists i :: 0 <= i < |Shown(opts)| && Shown(opts)[i].heading == headings[k]
  {
    var ss := Shown(opts);
    ShownInOrder(opts, headings);
    if opts[k].Some? {
      ShownContains(opts, k);
      var i :| 0 <= i < |ss| && ss[i] == opts[k].value;
      assert ss[i].heading == headings[k];
    } else if exists i :: 0 <= i < |ss| && ss[i].heading == headings[k] {
      var i :| 0 <= i < |ss| && ss[i].heading == headings[k];
      RankOfDistinct(headings, k);
      assert false;
    }
  }

  /** A present field is among the shown sections. */
  lemma {:induction false} ShownContains(opts: seq<Option<Section>>, k: nat)
    requires k < |opts| && opts[k].Some?
    ensures exists i :: 0 <= i < |Shown(opts)| && Shown(opts)[i] == opts[k].value
  {
    var n := |opts| - 1;
    var init := opts[..n];
    var before := Shown(init);
    if k == n {
      assert Shown(opts) == before + [opts[n].value];
      assert Shown(opts)[|before|] == opts[k].value;
    } else {
      assert init[k] == opts[k];
      ShownContains(init, k);
      var i :| 0 <= i < |before| && before[i] == opts[k].value;
      assert Shown(opts)[i] == before[i];
    }
  }

  /** No paragraphs are written exactly when no section is shown. */
  lemma RenderAllEmptyIff(ss: seq<Section>)
    ensures RenderAll(ss) == "" <==> ss == []
  {
    if ss != [] {
      var h := SectionHtml(ss[|ss| - 1]);
      assert h[0] == '<';
      assert (RenderAll(ss[..|ss| - 1]) + h)[|RenderAll(ss[..|ss| - 1])|] == '<';
    }
  }

  /** No section is shown exactly when no field is present. */
  lemma {:induction false} ShownEmptyIff(opts: seq<Option<Section>>)
    ensures Shown(opts) == [] <==> forall k :: 0 <= k < |opts| ==> opts[k].None?
  {
    if opts != [] {
      var n := |opts| - 1;
      ShownEmptyIff(opts[..n]);
      if Shown(opts) == [] {
        assert opts[n].None?;
        forall k | 0 <= k < |opts| ensures opts[k].None? {
          if k < n { assert opts[..n][k] == opts[k]; }
        }
      }
    }
  }

  /** A formatter writes nothing between `open` and `close` exactly when none of its fields is present. */
  lemma EmptyIff(open: string, close: string, opts: seq<Option<Section>>)
    ensures open + RenderAll(Shown(opts)) + close == open + close <==> forall k :: 0 <= k < |opts| ==> opts[k].None?
  {
    var body := RenderAll(Shown(opts));
    RenderAllEmptyIff(Shown(opts));
    ShownEmptyIff(opts);
    if body == "" {
      assert open + body == open;
    } else {
      assert |open + body + close| != |open + close|;
    }
  }
}
