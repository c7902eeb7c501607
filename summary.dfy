/**
 * `generateSummary` (server.js:45-114): the request it puts to the language
 * model, and the text it returns. It never fails: with no API key it returns a
 * fixed placeholder, and every failure of the call becomes a placeholder that
 * carries the error's message. The model's reply is an input.
 */
module Summary {
  import opened Wrappers
  import opened Text
  import JsInt

  /** The `data` argument: one report line, or the lines of one station's forecast. */
  datatype ReportData = Line(text: string) | Lines(lines: seq<string>)

  /** The report types that have a prompt of their own. */
  const KnownKinds := ["METAR", "TAF", "PIREP", "SIGMET"]

  // The long texts are written in pieces: the verifier reads the characters of short literals only.
  const MetarPrompt := "Translate this METAR into" + " simple English. Focus on" + " current conditions only: "
  const TafPrompt := "Translate this TAF forecast" + " into simple English." + " What's the weather outlook? "
  const PirepPrompt := "Explain this pilot report" + " in simple terms. What did" + " the pilot observe? "
  const SigmetPrompt := "Explain this SIGMET in" + " simple terms. What's the" + " significant weather warning? "
  const DefaultPrompt := "Explain this weather report" + " in simple terms: "

  /** The `switch (type)` of server.js:52-67. */
  function Prompt(kind: string): string {
    if kind == "METAR" then MetarPrompt
    else if kind == "TAF" then TafPrompt
    else if kind == "PIREP" then PirepPrompt
    else if kind == "SIGMET" then SigmetPrompt
    else DefaultPrompt
  }

  /** The sixteenth character tells the five prompts apart. */
  function PromptMark(kind: string): char {
    if kind == "METAR" then 'M'
    else if kind == "TAF" then 'T'
    else if kind == "PIREP" then 'l'
    else if kind == "SIGMET" then 'G'
    else 'a'
  }

  lemma PromptMarked(kind: string)
    ensures |Prompt(kind)| > 15 && Prompt(kind)[15] == PromptMark(kind)
  {
  }

  /**
   * `${data}` after server.js:47-49: the lines of a TAF are joined with
   * newlines; any other list would print as its comma-separated elements.
   */
  function ReportText(kind: string, data: ReportData): string {
    match data
    case Line(text) => text
    case Lines(lines) => if kind == "TAF" then Join(lines, "\n") else Join(lines, ",")
  }

  /** The user message: `${prompt}\n\n${data}`. */
  function UserContent(kind: string, data: ReportData): string {
    Prompt(kind) + "\n\n" + ReportText(kind, data)
  }

  /** What is asked of the model: the report type, the report's place in its list, and the user message. */
  datatype SummaryRequest = SummaryRequest(kind: string, index: nat, content: string)

  /**
   * How the call to the model ends: the request or the JSON decoding throws, the
   * response is not `ok`, the JSON has no `choices[0].message`, or a message is there.
   */
  datatype Reply = Threw(message: string) | NotOk(status: nat, statusText: string) | NoMessage | Content(content: string)

  const KeyMissing := "Plain English summary" + " temporarily unavailable" + " (API key missing)"

  const UnavailableOpen := "Summary temporarily unavailable ("

  const StatusOpen := "Groq API returned "

  /** The message of the error a failed call throws (server.js:99, 106), or that the call threw itself. */
  function ErrorMessage(reply: Reply): string
    requires !reply.Content?
  {
    match reply
    case Threw(message) => message
    case NotOk(status, statusText) => StatusOpen + JsInt.Digits(status) + ": " + statusText
    case NoMessage => "Invalid response format from Groq API"
  }

  /** The text of the `catch` (server.js:112). */
  function Unavailable(message: string): string {
    UnavailableOpen + message + ")"
  }

  /** `generateSummary(data, type)`, given whether the key is set and how the call ends. */
  function GenerateSummary(kind: string, data: ReportData, hasKey: bool, reply: Reply): string {
    if !hasKey then KeyMissing
    else if reply.Content? then reply.content
    else Unavailable(ErrorMessage(reply))
  }

  /** The summary of one report, with the model as a function of the request. */
  function SummaryFor(kind: string, index: nat, data: ReportData, hasKey: bool, api: SummaryRequest -> Reply): string {
    GenerateSummary(kind, data, hasKey, api(SummaryRequest(kind, index, UserContent(kind, data))))
  }

  /** The default prompt is used exactly for the types without a prompt of their own. */
  lemma PromptIsDefaultIff(kind: string)
    ensures Prompt(kind) == DefaultPrompt <==> kind !in KnownKinds
  {
    PromptMarked(kind);
  }

  /** Each known type has a prompt no other type gets. */
  lemma PromptIdentifiesKind(kind: string, other: string)
    requires kind in KnownKinds
    ensures Prompt(other) == Prompt(kind) <==> other == kind
  {
    PromptMarked(kind);
    PromptMarked(other);
  }

  /** The user message is the prompt, a blank line, then the report. */
  lemma ContentLayout(kind: string, data: ReportData)
    ensures var content, n := UserContent(kind, data), |Prompt(kind)|;
      && content[..n] == Prompt(kind)
      && content[n..n + 2] == "\n\n"
      && content[n + 2..] == ReportText(kind, data)
  {
    var content, n := UserContent(kind, data), |Prompt(kind)|;
    assert content == Prompt(kind) + ("\n\n" + ReportText(kind, data));
    assert content[n..] == "\n\n" + ReportText(kind, data);
  }

  /** A forecast sent as a list reaches the model as its lines, which splitting on newlines gives back. */
  lemma TafLinesRecoverable(lines: seq<string>)
    requires lines != []
    requires forall i :: 0 <= i < |lines| ==> '\n' !in lines[i]
    ensures Split(ReportText("TAF", Lines(lines)), '\n') == lines
  {
    SplitJoin(lines, '\n');
  }

  /** Without a key the model is never consulted: every reply gives the same placeholder. */
  lemma NoKeyIgnoresReply(kind: string, data: ReportData, reply: Reply, other: Reply)
    ensures GenerateSummary(kind, data, false, reply) == GenerateSummary(kind, data, false, other) == KeyMissing
  {
  }

  /**
   * With a key, the summary is the model's message when there is one, and
   * otherwise a placeholder from which the error's message can be read back.
   */
  lemma FailureBecomesPlaceholder(kind: string, data: ReportData, reply: Reply)
    requires !reply.Content?
    ensures var summary := GenerateSummary(kind, data, true, reply);
      && StartsWith(summary, UnavailableOpen)
      && summary[|summary| - 1] == ')'
      && summary[|UnavailableOpen|..|summary| - 1] == ErrorMessage(reply)
      && summary != KeyMissing
  {
    var summary := GenerateSummary(kind, data, true, reply);
    var message := ErrorMessage(reply);
    assert summary == UnavailableOpen + (message + ")");
    assert summary[|UnavailableOpen|..] == message + ")";
    assert summary[..|UnavailableOpen|] == UnavailableOpen;
    assert summary[0] != KeyMissing[0];
  }

  /** The status of a rejected call can be read back from its message with `parseInt`. */
  lemma StatusReadable(status: nat, statusText: string)
    ensures var message := ErrorMessage(NotOk(status, statusText));
      && StartsWith(message, StatusOpen)
      && JsInt.ParseInt(message[|StatusOpen|..]) == Some(status)
  {
    var message := ErrorMessage(NotOk(status, statusText));
    assert JsInt.IntString(status) == JsInt.Digits(status);
    assert message == StatusOpen + (JsInt.IntString(status) + (": " + statusText));
    assert message[|StatusOpen|..] == JsInt.IntString(status) + (": " + statusText);
    JsInt.ParseIntReadsLeadingInteger(status, ": " + statusText);
  }
}
