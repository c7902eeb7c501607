/**
 * The line handling of the `/api/weather` handler: each feed's text is split on
 * `'\n'` and the lines with no visible character are dropped (server.js:172,
 * 181, 207); the two SIGMET feeds also drop their `Type:` and `---` header lines
 * (server.js:247-255).
 */
module Feeds {
  import opened Text
  import opened Seqs

  /** `line => line.trim()`, read as a truth value: the trimmed line is not empty. */
  predicate NonBlank(line: string) { Trim(line) != "" }

  /** `data.split('\n').filter(line => line.trim())`. */
  function FeedLines(data: string): seq<string> {
    Filter(Split(data, '\n'), NonBlank)
  }

  /** The test of server.js:247-250: a non-empty trimmed line that is not a header. */
  predicate IsSigmetLine(line: string) {
    var trimmed := Trim(line);
    trimmed != "" && !StartsWith(trimmed, "Type:") && !StartsWith(trimmed, "---")
  }

  /** The SIGMET lines of one SIGMET feed. */
  function SigmetLines(data: string): seq<string> {
    Filter(Split(data, '\n'), IsSigmetLine)
  }

  /** A line passes the feed filter exactly when it holds a character that is not white space. */
  lemma NonBlankIff(line: string)
    ensures NonBlank(line) <==> exists i :: 0 <= i < |line| && !IsJsSpace(line[i])
  {
    TrimEmptyIffBlank(line);
  }

  /**
   * The kept lines are lines of the input, unchanged (not trimmed), in input
   * order, each with a visible character and none with a `'\n'`; and every
   * line of the input with a visible character is kept.
   */
  lemma FeedLinesKept(data: string)
    ensures IsSubsequence(FeedLines(data), Split(data, '\n'))
    ensures forall i :: 0 <= i < |FeedLines(data)| ==>
      FeedLines(data)[i] in Split(data, '\n') && '\n' !in FeedLines(data)[i] && NonBlank(FeedLines(data)[i])
    ensures forall line :: line in Split(data, '\n') && NonBlank(line) ==> line in FeedLines(data)
  {
    FilterIsSubsequence(Split(data, '\n'), NonBlank);
  }

  /** Every line kept from a SIGMET feed is a line of that feed that is not a header. */
  lemma SigmetLinesKept(data: string)
    ensures IsSubsequence(SigmetLines(data), Split(data, '\n'))
    ensures forall i :: 0 <= i < |SigmetLines(data)| ==>
      var line := SigmetLines(data)[i];
      line in Split(data, '\n') && NonBlank(line) &&
      !StartsWith(Trim(line), "Type:") && !StartsWith(Trim(line), "---")
    ensures forall line :: line in Split(data, '\n') && IsSigmetLine(line) ==> line in SigmetLines(data)
  {
    FilterIsSubsequence(Split(data, '\n'), IsSigmetLine);
  }

  /** The SIGMET lines are the feed lines with the header lines removed, in the same order. */
  lemma SigmetLinesNarrowFeedLines(data: string)
    ensures SigmetLines(data) == Filter(FeedLines(data), IsSigmetLine)
    ensures IsSubsequence(SigmetLines(data), FeedLines(data))
  {
    FilterNarrow(Split(data, '\n'), NonBlank, IsSigmetLine);
    FilterIsSubsequence(FeedLines(data), IsSigmetLine);
  }

  /** Filtering the combined SIGMET list keeps all domestic SIGMETs before all international ones. */
  lemma DomesticBeforeInternational(domestic: string, international: string, keep: string -> bool)
    ensures Filter(SigmetLines(domestic) + SigmetLines(international), keep) ==
      Filter(SigmetLines(domestic), keep) + Filter(SigmetLines(international), keep)
  {
    FilterAppend(SigmetLines(domestic), SigmetLines(international), keep);
  }
}
